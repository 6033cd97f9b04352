/** Building a JavaScript object keyed by a derived string, in the shapes the
    pages use:
      - `Array.from(new Set(xs))`: distinct values in first-appearance order;
      - `if (!g[k]) g[k] = []; g[k].push(x)`: grouping;
      - `c[k] = (c[k] || 0) + 1`: counting.
    An object is modelled as an association list in key-insertion order, which
    is the order `Object.entries` and `Object.keys` report for non-numeric keys. */
module Grouping {
  import opened Seqs

  /** Position of the first occurrence of `x` (`indexOf`). */
  function FirstIndex<T(==)>(xs: seq<T>, x: T): (i: nat)
    requires x in xs
    ensures i < |xs| && xs[i] == x
    ensures forall j :: 0 <= j < i ==> xs[j] != x
  {
    if xs[0] == x then 0 else 1 + FirstIndex(xs[1..], x)
  }

  /** Extending a list at the end leaves earlier first occurrences in place. */
  lemma FirstIndexOfPrefix<T>(xs: seq<T>, k: nat, x: T)
    requires k <= |xs| && x in xs[..k]
    ensures FirstIndex(xs, x) == FirstIndex(xs[..k], x)
  {
    var i := FirstIndex(xs, x);
    var j := FirstIndex(xs[..k], x);
    assert xs[..k][j] == xs[j];
    assert i <= j;
    assert xs[..k][i] == xs[i];
  }

  /** Every element of `d` occurs in `xs`, and `d` lists them in the order
      of their first occurrence in `xs`. */
  ghost predicate InFirstAppearanceOrder<T>(d: seq<T>, xs: seq<T>) {
    && (forall i :: 0 <= i < |d| ==> d[i] in xs)
    && (forall i, j :: 0 <= i < j < |d| ==>
          d[i] in xs && d[j] in xs && FirstIndex(xs, d[i]) < FirstIndex(xs, d[j]))
  }

  lemma DistinctStep<T>(xs: seq<T>, d: seq<T>)
    requires |xs| > 0
    requires NoDuplicates(d) && InFirstAppearanceOrder(d, xs[..|xs| - 1])
    requires forall i :: 0 <= i < |xs| - 1 ==> xs[i] in d
    ensures var d' := if xs[|xs| - 1] in d then d else d + [xs[|xs| - 1]];
      NoDuplicates(d') && InFirstAppearanceOrder(d', xs) && forall i :: 0 <= i < |xs| ==> xs[i] in d'
  {
    var n := |xs| - 1;
    var p := xs[..n];
    var x := xs[n];
    forall e | e in p ensures e in xs && FirstIndex(xs, e) == FirstIndex(p, e) {
      FirstIndexOfPrefix(xs, n, e);
    }
    if x !in d {
      assert forall i :: 0 <= i < n ==> xs[i] != x by {
        forall i | 0 <= i < n ensures xs[i] != x {
          assert xs[i] in d;
        }
      }
      var d' := d + [x];
      assert FirstIndex(xs, x) == n;
      forall i, j | 0 <= i < j < |d'|
        ensures d'[i] in xs && d'[j] in xs && FirstIndex(xs, d'[i]) < FirstIndex(xs, d'[j])
      {
        assert d'[i] == d[i] && d[i] in p;
        if j < |d| {
          assert d'[j] == d[j];
        } else {
          assert FirstIndex(p, d[i]) < n;
        }
      }
    }
  }

  /** `Array.from(new Set(xs))`: each value once, in order of first appearance. */
  function Distinct<T(==)>(xs: seq<T>): (d: seq<T>)
    ensures NoDuplicates(d)
    ensures InFirstAppearanceOrder(d, xs)
    ensures forall i :: 0 <= i < |xs| ==> xs[i] in d
    decreases |xs|
  {
    if |xs| == 0 then []
    else
      var d := Distinct(xs[..|xs| - 1]);
      DistinctStep(xs, d);
      if xs[|xs| - 1] in d then d else d + [xs[|xs| - 1]]
  }

  /** The keys of an association list, in order. */
  function Keys<K, V>(g: seq<(K, V)>): (ks: seq<K>)
    ensures |ks| == |g|
    ensures forall i :: 0 <= i < |g| ==> ks[i] == g[i].0
  {
    if |g| == 0 then [] else [g[0].0] + Keys(g[1..])
  }

  /** Replacing a value keeps the keys. */
  lemma KeysUpdate<K, V>(g: seq<(K, V)>, i: nat, v: V)
    requires i < |g|
    ensures Keys(g[i := (g[i].0, v)]) == Keys(g)
  {
    var g' := g[i := (g[i].0, v)];
    forall j | 0 <= j < |g| ensures Keys(g')[j] == Keys(g)[j] {
    }
  }

  /** Appending an entry appends its key. */
  lemma KeysAppend<K, V>(g: seq<(K, V)>, e: (K, V))
    ensures Keys(g + [e]) == Keys(g) + [e.0]
  {
    var g' := g + [e];
    forall j | 0 <= j < |g'| ensures Keys(g')[j] == (Keys(g) + [e.0])[j] {
    }
  }

  /** The test `key(x) === k`, as a function value. */
  function KeyIs<T, K(==)>(key: T -> K, k: K): T -> bool {
    x => key(x) == k
  }

  /** The elements whose key is `k`, in their original order. */
  function WithKey<T, K(==)>(xs: seq<T>, key: T -> K, k: K): seq<T> {
    Filter(xs, KeyIs(key, k))
  }

  /** Total number of elements over all groups. */
  function SumSizes<K, T>(g: seq<(K, seq<T>)>): nat {
    if |g| == 0 then 0 else SumSizes(g[..|g| - 1]) + |g[|g| - 1].1|
  }

  /** Total of all counts. */
  function SumCounts<K>(c: seq<(K, nat)>): nat {
    if |c| == 0 then 0 else SumCounts(c[..|c| - 1]) + c[|c| - 1].1
  }

  lemma {:induction false} SumSizesUpdate<K, T>(g: seq<(K, seq<T>)>, i: nat, e: (K, seq<T>))
    requires i < |g| && |e.1| == |g[i].1| + 1
    ensures SumSizes(g[i := e]) == SumSizes(g) + 1
    decreases |g|
  {
    var n := |g| - 1;
    if i == n {
      assert g[i := e][..n] == g[..n];
    } else {
      assert g[i := e][..n] == g[..n][i := e];
      SumSizesUpdate(g[..n], i, e);
    }
  }

  lemma {:induction false} SumCountsUpdate<K>(c: seq<(K, nat)>, i: nat, e: (K, nat))
    requires i < |c| && e.1 == c[i].1 + 1
    ensures SumCounts(c[i := e]) == SumCounts(c) + 1
    decreases |c|
  {
    var n := |c| - 1;
    if i == n {
      assert c[i := e][..n] == c[..n];
    } else {
      assert c[i := e][..n] == c[..n][i := e];
      SumCountsUpdate(c[..n], i, e);
    }
  }

  /** One `forEach` step of grouping: push `x` onto the group for its key,
      creating the group at the end when the key is new. */
  function AddToGroup<T, K(==)>(g: seq<(K, seq<T>)>, key: T -> K, x: T): (g': seq<(K, seq<T>)>)
    requires NoDuplicates(Keys(g))
  {
    var k := key(x);
    if k in Keys(g) then
      var i := FirstIndex(Keys(g), k);
      g[i := (k, g[i].1 + [x])]
    else
      g + [(k, [x])]
  }

  /** One `forEach` step of counting. */
  function AddToCount<K(==)>(c: seq<(K, nat)>, k: K): (c': seq<(K, nat)>)
    requires NoDuplicates(Keys(c))
  {
    if k in Keys(c) then
      var i := FirstIndex(Keys(c), k);
      c[i := (k, c[i].1 + 1)]
    else
      c + [(k, 1)]
  }

  /** Keys after one step: unchanged for a known key, the new key appended
      otherwise, which is how `Distinct` grows by one element. */
  lemma KeysStep<T, K>(xs: seq<T>, key: T -> K, ks: seq<K>)
    requires |xs| > 0
    requires ks == Distinct(MapSeq(xs[..|xs| - 1], key))
    ensures MapSeq(xs, key)[..|xs| - 1] == MapSeq(xs[..|xs| - 1], key)
    ensures Distinct(MapSeq(xs, key)) ==
      if key(xs[|xs| - 1]) in ks then ks else ks + [key(xs[|xs| - 1])]
  {
    var n := |xs| - 1;
    var ys := MapSeq(xs, key);
    assert ys[..n] == MapSeq(xs[..n], key) by {
      forall i | 0 <= i < n ensures ys[..n][i] == MapSeq(xs[..n], key)[i] {
        assert xs[..n][i] == xs[i];
      }
    }
    assert ys[n] == key(xs[n]);
  }

  /** Filtering by key after one more element. */
  lemma WithKeySnoc<T, K>(xs: seq<T>, key: T -> K)
    requires |xs| > 0
    ensures forall kk :: (WithKey(xs, key, kk) ==
      WithKey(xs[..|xs| - 1], key, kk) + (if key(xs[|xs| - 1]) == kk then [xs[|xs| - 1]] else []))
  {
    var n := |xs| - 1;
    assert xs == xs[..n] + [xs[n]];
    forall kk ensures WithKey(xs, key, kk) ==
      WithKey(xs[..n], key, kk) + (if key(xs[n]) == kk then [xs[n]] else [])
    {
      FilterSnoc(xs[..n], xs[n], KeyIs(key, kk));
    }
  }

  /** A key that no element has selects nothing. */
  lemma WithAbsentKey<T, K>(xs: seq<T>, key: T -> K, k: K)
    requires k !in MapSeq(xs, key)
    ensures WithKey(xs, key, k) == []
  {
    forall j | 0 <= j < |xs| ensures !KeyIs(key, k)(xs[j]) {
      assert MapSeq(xs, key)[j] == key(xs[j]);
    }
  }

  /** Each group of `g` holds exactly the elements of `xs` with its key. */
  ghost predicate GroupsHold<T, K>(g: seq<(K, seq<T>)>, xs: seq<T>, key: T -> K) {
    forall i :: 0 <= i < |g| ==> g[i].1 == WithKey(xs, key, g[i].0)
  }

  /** `g` is the grouping of `xs` by `key`: one group per distinct key, in
      first-appearance order, each holding exactly the elements with that key. */
  ghost predicate IsGroupingOf<T, K>(g: seq<(K, seq<T>)>, xs: seq<T>, key: T -> K) {
    && Keys(g) == Distinct(MapSeq(xs, key))
    && GroupsHold(g, xs, key)
    && SumSizes(g) == |xs|
  }

  lemma GroupsHoldKnownKey<T, K>(xs: seq<T>, key: T -> K, g: seq<(K, seq<T>)>, i: nat)
    requires |xs| > 0 && i < |g|
    requires GroupsHold(g, xs[..|xs| - 1], key) && NoDuplicates(Keys(g))
    requires g[i].0 == key(xs[|xs| - 1])
    ensures GroupsHold(g[i := (g[i].0, g[i].1 + [xs[|xs| - 1]])], xs, key)
  {
    var x := xs[|xs| - 1];
    var g' := g[i := (g[i].0, g[i].1 + [x])];
    WithKeySnoc(xs, key);
    forall j | 0 <= j < |g'| ensures g'[j].1 == WithKey(xs, key, g'[j].0) {
      if j != i {
        assert Keys(g)[j] != Keys(g)[i];
      }
    }
  }

  lemma GroupsHoldNewKey<T, K>(xs: seq<T>, key: T -> K, g: seq<(K, seq<T>)>)
    requires |xs| > 0
    requires GroupsHold(g, xs[..|xs| - 1], key)
    requires key(xs[|xs| - 1]) !in Keys(g) && key(xs[|xs| - 1]) !in MapSeq(xs[..|xs| - 1], key)
    ensures GroupsHold(g + [(key(xs[|xs| - 1]), [xs[|xs| - 1]])], xs, key)
  {
    var n := |xs| - 1;
    var x := xs[n];
    var k := key(x);
    var g' := g + [(k, [x])];
    WithKeySnoc(xs, key);
    WithAbsentKey(xs[..n], key, k);
    forall j | 0 <= j < |g'| ensures g'[j].1 == WithKey(xs, key, g'[j].0) {
      if j < |g| {
        assert g'[j] == g[j];
        assert Keys(g)[j] != k;
        assert WithKey(xs, key, g[j].0) == WithKey(xs[..n], key, g[j].0) + [];
      } else {
        assert WithKey(xs, key, k) == WithKey(xs[..n], key, k) + [x];
      }
    }
  }

  lemma GroupByStep<T, K>(xs: seq<T>, key: T -> K, g: seq<(K, seq<T>)>)
    requires |xs| > 0
    requires IsGroupingOf(g, xs[..|xs| - 1], key)
    ensures NoDuplicates(Keys(g))
    ensures IsGroupingOf(AddToGroup(g, key, xs[|xs| - 1]), xs, key)
  {
    if key(xs[|xs| - 1]) in Keys(g) {
      GroupByStepKnownKey(xs, key, g);
    } else {
      GroupByStepNewKey(xs, key, g);
    }
  }

  lemma GroupByStepKnownKey<T, K>(xs: seq<T>, key: T -> K, g: seq<(K, seq<T>)>)
    requires |xs| > 0
    requires IsGroupingOf(g, xs[..|xs| - 1], key)
    requires key(xs[|xs| - 1]) in Keys(g)
    ensures IsGroupingOf(AddToGroup(g, key, xs[|xs| - 1]), xs, key)
  {
    var x := xs[|xs| - 1];
    var k := key(x);
    var i := FirstIndex(Keys(g), k);
    var g' := g[i := (g[i].0, g[i].1 + [x])];
    assert AddToGroup(g, key, x) == g';
    assert Keys(g') == Distinct(MapSeq(xs, key)) by {
      KeysStep(xs, key, Keys(g));
      KeysUpdate(g, i, g[i].1 + [x]);
    }
    assert GroupsHold(g', xs, key) by {
      GroupsHoldKnownKey(xs, key, g, i);
    }
    assert SumSizes(g') == |xs| by {
      SumSizesUpdate(g, i, (k, g[i].1 + [x]));
    }
  }

  lemma GroupByStepNewKey<T, K>(xs: seq<T>, key: T -> K, g: seq<(K, seq<T>)>)
    requires |xs| > 0
    requires IsGroupingOf(g, xs[..|xs| - 1], key)
    requires key(xs[|xs| - 1]) !in Keys(g)
    ensures IsGroupingOf(AddToGroup(g, key, xs[|xs| - 1]), xs, key)
  {
    var n := |xs| - 1;
    var x := xs[n];
    var k := key(x);
    var g' := AddToGroup(g, key, x);
    assert g' == g + [(k, [x])];
    assert Keys(g') == Distinct(MapSeq(xs, key)) by {
      KeysStep(xs, key, Keys(g));
      KeysAppend(g, (k, [x]));
    }
    assert k !in MapSeq(xs[..n], key);
    GroupsHoldNewKey(xs, key, g);
    assert g'[..|g|] == g;
    assert IsGroupingOf(g', xs, key);
  }


  /** The object built by pushing every element onto the group for its key. */
  function GroupBy<T, K(==)>(xs: seq<T>, key: T -> K): (g: seq<(K, seq<T>)>)
    ensures Keys(g) == Distinct(MapSeq(xs, key))
    ensures forall i :: 0 <= i < |g| ==> g[i].1 == WithKey(xs, key, g[i].0)
    ensures SumSizes(g) == |xs|
    decreases |xs|
  {
    if |xs| == 0 then []
    else
      var g := GroupBy(xs[..|xs| - 1], key);
      GroupByStep(xs, key, g);
      AddToGroup(g, key, xs[|xs| - 1])
  }

  /** Each counter of `c` is the number of elements of `xs` with its key. */
  ghost predicate CountsHold<T, K>(c: seq<(K, nat)>, xs: seq<T>, key: T -> K) {
    forall i :: 0 <= i < |c| ==> c[i].1 == |WithKey(xs, key, c[i].0)|
  }

  /** `c` is the count of `xs` by `key`: one counter per distinct key, in
      first-appearance order, each equal to the number of elements with that key. */
  ghost predicate IsCountOf<T, K>(c: seq<(K, nat)>, xs: seq<T>, key: T -> K) {
    && Keys(c) == Distinct(MapSeq(xs, key))
    && CountsHold(c, xs, key)
    && SumCounts(c) == |xs|
  }

  lemma CountsHoldKnownKey<T, K>(xs: seq<T>, key: T -> K, c: seq<(K, nat)>, i: nat)
    requires |xs| > 0 && i < |c|
    requires CountsHold(c, xs[..|xs| - 1], key) && NoDuplicates(Keys(c))
    requires c[i].0 == key(xs[|xs| - 1])
    ensures CountsHold(c[i := (c[i].0, c[i].1 + 1)], xs, key)
  {
    var c' := c[i := (c[i].0, c[i].1 + 1)];
    WithKeySnoc(xs, key);
    forall j | 0 <= j < |c'| ensures c'[j].1 == |WithKey(xs, key, c'[j].0)| {
      if j != i {
        assert Keys(c)[j] != Keys(c)[i];
      }
    }
  }

  lemma CountsHoldNewKey<T, K>(xs: seq<T>, key: T -> K, c: seq<(K, nat)>)
    requires |xs| > 0
    requires CountsHold(c, xs[..|xs| - 1], key)
    requires key(xs[|xs| - 1]) !in Keys(c) && key(xs[|xs| - 1]) !in MapSeq(xs[..|xs| - 1], key)
    ensures CountsHold(c + [(key(xs[|xs| - 1]), 1)], xs, key)
  {
    var n := |xs| - 1;
    var x := xs[n];
    var k := key(x);
    var c' := c + [(k, 1)];
    WithKeySnoc(xs, key);
    WithAbsentKey(xs[..n], key, k);
    forall j | 0 <= j < |c'| ensures c'[j].1 == |WithKey(xs, key, c'[j].0)| {
      if j < |c| {
        assert c'[j] == c[j];
        assert Keys(c)[j] != k;
        assert WithKey(xs, key, c[j].0) == WithKey(xs[..n], key, c[j].0) + [];
      } else {
        assert WithKey(xs, key, k) == WithKey(xs[..n], key, k) + [x];
      }
    }
  }

  lemma CountByStep<T, K>(xs: seq<T>, key: T -> K, c: seq<(K, nat)>)
    requires |xs| > 0
    requires IsCountOf(c, xs[..|xs| - 1], key)
    ensures NoDuplicates(Keys(c))
    ensures IsCountOf(AddToCount(c, key(xs[|xs| - 1])), xs, key)
  {
    if key(xs[|xs| - 1]) in Keys(c) {
      CountByStepKnownKey(xs, key, c);
    } else {
      CountByStepNewKey(xs, key, c);
    }
  }

  lemma CountByStepKnownKey<T, K>(xs: seq<T>, key: T -> K, c: seq<(K, nat)>)
    requires |xs| > 0
    requires IsCountOf(c, xs[..|xs| - 1], key)
    requires key(xs[|xs| - 1]) in Keys(c)
    ensures IsCountOf(AddToCount(c, key(xs[|xs| - 1])), xs, key)
  {
    var k := key(xs[|xs| - 1]);
    var i := FirstIndex(Keys(c), k);
    var c' := c[i := (c[i].0, c[i].1 + 1)];
    assert AddToCount(c, k) == c';
    assert Keys(c') == Distinct(MapSeq(xs, key)) by {
      KeysStep(xs, key, Keys(c));
      KeysUpdate(c, i, c[i].1 + 1);
    }
    assert CountsHold(c', xs, key) by {
      CountsHoldKnownKey(xs, key, c, i);
    }
    assert SumCounts(c') == |xs| by {
      SumCountsUpdate(c, i, (k, c[i].1 + 1));
    }
  }

  lemma CountByStepNewKey<T, K>(xs: seq<T>, key: T -> K, c: seq<(K, nat)>)
    requires |xs| > 0
    requires IsCountOf(c, xs[..|xs| - 1], key)
    requires key(xs[|xs| - 1]) !in Keys(c)
    ensures IsCountOf(AddToCount(c, key(xs[|xs| - 1])), xs, key)
  {
    var n := |xs| - 1;
    var x := xs[n];
    var k := key(x);
    var c' := AddToCount(c, k);
    assert c' == c + [(k, 1)];
    assert Keys(c') == Distinct(MapSeq(xs, key)) by {
      KeysStep(xs, key, Keys(c));
      KeysAppend(c, (k, 1));
    }
    assert k !in MapSeq(xs[..n], key);
    CountsHoldNewKey(xs, key, c);
    assert c'[..|c|] == c;
    assert IsCountOf(c', xs, key);
  }


  /** The object built by incrementing a counter for every element's key. */
  function CountBy<T, K(==)>(xs: seq<T>, key: T -> K): (c: seq<(K, nat)>)
    ensures Keys(c) == Distinct(MapSeq(xs, key))
    ensures forall i :: 0 <= i < |c| ==> c[i].1 == |WithKey(xs, key, c[i].0)|
    ensures SumCounts(c) == |xs|
    decreases |xs|
  {
    if |xs| == 0 then []
    else
      var c := CountBy(xs[..|xs| - 1], key);
      CountByStep(xs, key, c);
      AddToCount(c, key(xs[|xs| - 1]))
  }

  lemma InItsOwnGroup<T, K>(g: seq<(K, seq<T>)>, xs: seq<T>, key: T -> K, x: T)
    requires GroupsHold(g, xs, key) && x in xs
    ensures forall i :: 0 <= i < |g| ==> (x in g[i].1 <==> g[i].0 == key(x))
  {
    forall i | 0 <= i < |g| ensures x in g[i].1 <==> g[i].0 == key(x) {
      var k := g[i].0;
      assert g[i].1 == Filter(xs, KeyIs(key, k));
      if k == key(x) {
        var j :| 0 <= j < |xs| && xs[j] == x;
        assert KeyIs(key, k)(xs[j]);
      }
    }
  }

  /** Every element lands in exactly one group: the one for its own key. */
  lemma ExactlyOneGroup<T, K>(xs: seq<T>, key: T -> K, x: T)
    requires x in xs
    ensures key(x) in Keys(GroupBy(xs, key))
    ensures forall i :: 0 <= i < |GroupBy(xs, key)| ==>
      (x in GroupBy(xs, key)[i].1 <==> GroupBy(xs, key)[i].0 == key(x))
  {
    var g := GroupBy(xs, key);
    var j :| 0 <= j < |xs| && xs[j] == x;
    assert MapSeq(xs, key)[j] == key(x);
    InItsOwnGroup(g, xs, key, x);
  }

  /** A key has a group exactly when some element has that key. */
  lemma KeyPresent<T, K>(xs: seq<T>, key: T -> K, k: K)
    ensures k in Keys(GroupBy(xs, key)) <==> exists i :: 0 <= i < |xs| && key(xs[i]) == k
  {
    var ks := MapSeq(xs, key);
    var d := Keys(GroupBy(xs, key));
    if k in d {
      var n :| 0 <= n < |d| && d[n] == k;
      assert Distinct(ks)[n] == k;
      var i :| 0 <= i < |ks| && ks[i] == k;
      assert key(xs[i]) == k;
    }
    if exists i :: 0 <= i < |xs| && key(xs[i]) == k {
      var i :| 0 <= i < |xs| && key(xs[i]) == k;
      assert ks[i] == k;
    }
  }

  /** No group is empty: a key exists only because some element has it. */
  lemma GroupsNonEmpty<T, K>(xs: seq<T>, key: T -> K)
    ensures forall i :: 0 <= i < |GroupBy(xs, key)| ==> |GroupBy(xs, key)[i].1| > 0
  {
    forall i | 0 <= i < |GroupBy(xs, key)| ensures |GroupBy(xs, key)[i].1| > 0 {
      GroupNonEmpty(xs, key, i);
    }
  }

  lemma GroupNonEmpty<T, K>(xs: seq<T>, key: T -> K, i: nat)
    requires i < |GroupBy(xs, key)|
    ensures |GroupBy(xs, key)[i].1| > 0
  {
    var g := GroupBy(xs, key);
    var ks := MapSeq(xs, key);
    var k := g[i].0;
    assert k in ks by {
      assert Keys(g)[i] == k;
      assert Distinct(ks)[i] == k;
    }
    var j :| 0 <= j < |ks| && ks[j] == k;
    assert KeyIs(key, k)(xs[j]);
    assert xs[j] in g[i].1;
  }

  /** The counts are exactly the sizes of the groups, key by key. */
  lemma CountsAreGroupSizes<T, K>(xs: seq<T>, key: T -> K)
    ensures |CountBy(xs, key)| == |GroupBy(xs, key)|
    ensures forall i :: 0 <= i < |CountBy(xs, key)| ==>
      CountBy(xs, key)[i] == (GroupBy(xs, key)[i].0, |GroupBy(xs, key)[i].1|)
  {
    var c := CountBy(xs, key);
    var g := GroupBy(xs, key);
    assert Keys(c) == Keys(g);
    forall i | 0 <= i < |c| ensures c[i] == (g[i].0, |g[i].1|) {
      assert Keys(c)[i] == Keys(g)[i];
    }
  }
}
