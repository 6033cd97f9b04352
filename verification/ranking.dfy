/** `Object.entries(counts).sort((a, b) => b[1] - a[1]).slice(0, 5)`: the
    category leaderboard of the dashboard and the analytics page. The array
    sort is stable, so entries with equal counts keep their insertion order. */
module Ranking {
  import opened Seqs

  /** Counts never increase from left to right. */
  ghost predicate NonIncreasing<K>(xs: seq<(K, nat)>) {
    forall i, j :: 0 <= i < j < |xs| ==> xs[i].1 >= xs[j].1
  }

  /** Selects the entries whose count is `c`. */
  function CountIs<K>(c: nat): ((K, nat)) -> bool {
    (e: (K, nat)) => e.1 == c
  }

  /** Puts `e`, which comes before every entry of `xs` in the input, in front
      of the first entry whose count does not exceed its own. */
  function Insert<K>(e: (K, nat), xs: seq<(K, nat)>): (r: seq<(K, nat)>)
    ensures |r| == |xs| + 1
  {
    if |xs| == 0 || xs[0].1 <= e.1 then [e] + xs
    else [xs[0]] + Insert(e, xs[1..])
  }

  /** Inserting into a list sorted by count keeps it sorted and adds exactly `e`. */
  lemma {:induction false} InsertSorted<K>(e: (K, nat), xs: seq<(K, nat)>)
    requires NonIncreasing(xs)
    ensures NonIncreasing(Insert(e, xs))
    ensures multiset(Insert(e, xs)) == multiset(xs) + multiset{e}
  {
    if |xs| == 0 || xs[0].1 <= e.1 {
      ConsNonIncreasing(e, xs);
    } else {
      InsertSorted(e, xs[1..]);
      InsertBehind(e, xs, Insert(e, xs[1..]));
    }
  }

  /** An entry whose count is at least the head's may go in front. */
  lemma ConsNonIncreasing<K>(e: (K, nat), xs: seq<(K, nat)>)
    requires NonIncreasing(xs) && (|xs| == 0 || xs[0].1 <= e.1)
    ensures NonIncreasing([e] + xs)
  {
  }

  /** Keeping the head in front of the rest with `e` inserted stays sorted and
      adds `e` to the multiset. */
  lemma InsertBehind<K>(e: (K, nat), xs: seq<(K, nat)>, rest: seq<(K, nat)>)
    requires NonIncreasing(xs) && |xs| > 0 && xs[0].1 > e.1
    requires NonIncreasing(rest) && multiset(rest) == multiset(xs[1..]) + multiset{e}
    ensures NonIncreasing([xs[0]] + rest)
    ensures multiset([xs[0]] + rest) == multiset(xs) + multiset{e}
  {
    assert xs == [xs[0]] + xs[1..];
    forall j | 0 <= j < |rest| ensures rest[j].1 <= xs[0].1 {
      assert rest[j] in multiset(rest);
      if rest[j] != e {
        assert rest[j] in multiset(xs[1..]);
        var k :| 0 <= k < |xs[1..]| && xs[1..][k] == rest[j];
        assert xs[k + 1] == rest[j];
      }
    }
  }

  /** The stable sort by count, highest first. */
  function SortByCount<K>(xs: seq<(K, nat)>): (r: seq<(K, nat)>)
    ensures NonIncreasing(r)
    ensures multiset(r) == multiset(xs)
    ensures |r| == |xs|
  {
    if |xs| == 0 then []
    else
      assert xs == [xs[0]] + xs[1..];
      InsertSorted(xs[0], SortByCount(xs[1..]));
      Insert(xs[0], SortByCount(xs[1..]))
  }

  /** Inserting `e` places it before every entry with its own count. */
  lemma {:induction false} InsertStable<K>(e: (K, nat), xs: seq<(K, nat)>, c: nat)
    ensures Filter(Insert(e, xs), CountIs(c)) == (if e.1 == c then [e] else []) + Filter(xs, CountIs(c))
  {
    if |xs| == 0 || xs[0].1 <= e.1 {
      FilterCons(e, xs, CountIs(c));
    } else {
      InsertStable(e, xs[1..], c);
      StableBehind(e, xs, CountIs(c), if e.1 == c then [e] else []);
    }
  }

  /** The step of `InsertStable` where `e` goes behind the head. */
  lemma StableBehind<K>(e: (K, nat), xs: seq<(K, nat)>, p: ((K, nat)) -> bool, front: seq<(K, nat)>)
    requires |xs| > 0 && xs[0].1 > e.1
    requires front == [] || !p(xs[0])
    requires Filter(Insert(e, xs[1..]), p) == front + Filter(xs[1..], p)
    ensures Filter(Insert(e, xs), p) == front + Filter(xs, p)
  {
    var rest := Insert(e, xs[1..]);
    ConsFilterSwap(xs[0], rest, xs[1..], p, front);
    assert Insert(e, xs) == [xs[0]] + rest;
    assert xs == [xs[0]] + xs[1..];
  }

  /** Putting `x` in front of two lists whose filtered forms differ by a
      prefix `front` keeps them so when `x` is filtered out or `front` is empty. */
  lemma ConsFilterSwap<T>(x: T, rest: seq<T>, ys: seq<T>, p: T -> bool, front: seq<T>)
    requires Filter(rest, p) == front + Filter(ys, p)
    requires front == [] || !p(x)
    ensures Filter([x] + rest, p) == front + Filter([x] + ys, p)
  {
    FilterCons(x, rest, p);
    FilterCons(x, ys, p);
    var head := if p(x) then [x] else [];
    ConcatSwap(head, front, Filter(ys, p));
  }

  lemma ConcatSwap<T>(a: seq<T>, b: seq<T>, c: seq<T>)
    requires a == [] || b == []
    ensures a + (b + c) == b + (a + c)
  {
  }

  /** The sort is stable: the entries with any one count appear in the
      output in exactly the order they have in the input. */
  lemma {:induction false} SortStable<K>(xs: seq<(K, nat)>, c: nat)
    ensures Filter(SortByCount(xs), CountIs(c)) == Filter(xs, CountIs(c))
  {
    if |xs| > 0 {
      SortStable(xs[1..], c);
      InsertStable(xs[0], SortByCount(xs[1..]), c);
    }
  }

  /** The five entries with the highest counts, highest first: at most five,
      taken from the input without repeating any occurrence, and every
      occurrence left out counts no more than any entry shown. */
  function TopFive<K>(xs: seq<(K, nat)>): (r: seq<(K, nat)>)
    ensures |r| == if |xs| < 5 then |xs| else 5
    ensures NonIncreasing(r)
    ensures multiset(r) <= multiset(xs)
    ensures forall i :: 0 <= i < |r| ==> r[i] in xs
    ensures forall i, j :: 0 <= i < |r| && 0 <= j < |xs| && multiset(r)[xs[j]] < multiset(xs)[xs[j]] ==>
      r[i].1 >= xs[j].1
  {
    var sorted := SortByCount(xs);
    var r := Take(sorted, 5);
    assert r == sorted[..|r|];
    TopOfSorted(xs, sorted, |r|);
    r
  }

  /** A prefix of a sorted permutation of `xs`, stated against `xs`. */
  lemma TopOfSorted<K>(xs: seq<(K, nat)>, sorted: seq<(K, nat)>, k: nat)
    requires NonIncreasing(sorted) && multiset(sorted) == multiset(xs) && k <= |sorted|
    ensures multiset(sorted[..k]) <= multiset(xs)
    ensures forall i :: 0 <= i < k ==> sorted[..k][i] in xs
    ensures forall i, j :: 0 <= i < k && 0 <= j < |xs| && multiset(sorted[..k])[xs[j]] < multiset(xs)[xs[j]] ==>
      sorted[..k][i].1 >= xs[j].1
  {
    PrefixOfSorted(sorted, k);
    forall i | 0 <= i < k ensures sorted[..k][i] in xs {
      assert sorted[..k][i] in multiset(sorted[..k]);
      assert sorted[..k][i] in multiset(xs);
    }
  }

  /** A prefix of a list sorted by count takes part of its entries, and
      whatever the prefix leaves out counts no more than anything in it. */
  lemma PrefixOfSorted<K>(sorted: seq<(K, nat)>, k: nat)
    requires NonIncreasing(sorted) && k <= |sorted|
    ensures multiset(sorted[..k]) <= multiset(sorted)
    ensures forall i, x :: 0 <= i < k && multiset(sorted[..k])[x] < multiset(sorted)[x] ==>
      sorted[i].1 >= x.1
  {
    assert sorted == sorted[..k] + sorted[k..];
    forall i, x | 0 <= i < k && multiset(sorted[..k])[x] < multiset(sorted)[x]
      ensures sorted[i].1 >= x.1
    {
      assert x in multiset(sorted[k..]);
      var m :| 0 <= m < |sorted[k..]| && sorted[k..][m] == x;
      assert sorted[k + m] == x;
    }
  }

  /** The top five's dominance stated per entry: an entry that is not shown
      at all counts no more than any entry shown. */
  lemma LeftOutRanksLower<K>(xs: seq<(K, nat)>, r: seq<(K, nat)>)
    requires r == TopFive(xs)
    ensures forall j :: 0 <= j < |xs| && xs[j] !in r ==> forall i :: 0 <= i < |r| ==> r[i].1 >= xs[j].1
  {
    forall j | 0 <= j < |xs| && xs[j] !in r ensures forall i :: 0 <= i < |r| ==> r[i].1 >= xs[j].1 {
      assert xs[j] in multiset(xs);
      assert multiset(r)[xs[j]] == 0;
    }
  }

  /** Nothing left out of the top five outranks anything in it. */
  lemma TopFiveDominates<K>(xs: seq<(K, nat)>, j: nat)
    requires j < |xs| && xs[j] !in TopFive(xs)
    ensures forall i :: 0 <= i < |TopFive(xs)| ==> TopFive(xs)[i].1 >= xs[j].1
  {
    LeftOutRanksLower(xs, TopFive(xs));
  }
}
