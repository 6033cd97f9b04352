/** The safety tips page: the tips grouped under their category. */
module SafetyTips {
  import opened Seqs
  import opened Grouping
  import opened Reports

  function TipCategory(t: SafetyTip): string { t.category }

  /** `tipsByCategory`: one group per category in first-appearance order,
      each holding that category's tips in store order, together holding every tip. */
  function TipsByCategory(tips: seq<SafetyTip>): (g: seq<(string, seq<SafetyTip>)>)
    ensures Keys(g) == Distinct(MapSeq(tips, TipCategory))
    ensures forall i :: 0 <= i < |g| ==> g[i].1 == Filter(tips, KeyIs(TipCategory, g[i].0))
    ensures SumSizes(g) == |tips|
  {
    GroupBy(tips, TipCategory)
  }

  /** Every tip is in the group of its own category and in no other. */
  lemma EachTipInOwnGroup(tips: seq<SafetyTip>, t: SafetyTip)
    requires t in tips
    ensures t.category in Keys(TipsByCategory(tips))
    ensures forall i :: 0 <= i < |TipsByCategory(tips)| ==>
      (t in TipsByCategory(tips)[i].1 <==> TipsByCategory(tips)[i].0 == t.category)
  {
    ExactlyOneGroup(tips, TipCategory, t);
  }

  /** A group exists exactly for the categories some tip has, so no group is
      empty; each group keeps the store order of its tips. */
  lemma GroupsAreCategories(tips: seq<SafetyTip>, k: string)
    ensures k in Keys(TipsByCategory(tips)) <==> exists i :: 0 <= i < |tips| && tips[i].category == k
    ensures forall i :: 0 <= i < |TipsByCategory(tips)| ==>
      |TipsByCategory(tips)[i].1| > 0 && IsSubsequence(TipsByCategory(tips)[i].1, tips)
  {
    KeyPresent(tips, TipCategory, k);
    GroupsNonEmpty(tips, TipCategory);
  }

  /** A published tip heads the group of its category, followed by the
      older tips of that category in store order. */
  lemma NewTipLeadsItsGroup(st: Store, draft: TipDraft, id: string, now: int)
    ensures var tips := AddSafetyTip(st, draft, id, now).tips;
      var g := TipsByCategory(tips);
      exists i :: 0 <= i < |g| && g[i].0 == draft.category &&
        g[i].1 == [tips[0]] + Filter(st.tips, KeyIs(TipCategory, draft.category))
  {
    var tips := AddSafetyTip(st, draft, id, now).tips;
    var g := TipsByCategory(tips);
    ExactlyOneGroup(tips, TipCategory, tips[0]);
    var i :| 0 <= i < |Keys(g)| && Keys(g)[i] == draft.category;
    assert g[i].0 == draft.category;
    FilterCons(tips[0], st.tips, KeyIs(TipCategory, draft.category));
    assert tips == [tips[0]] + st.tips;
  }
}
