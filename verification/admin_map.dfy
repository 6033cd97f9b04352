/** The incident map: a time range, a category and two emergency toggles
    applied one after another, and the per-category side list that shows
    the first three reports of each group. */
module AdminMap {
  import opened Wrappers
  import opened Seqs
  import opened Grouping
  import opened Reports
  import opened Queries

  datatype Criteria = Criteria(timeRange: string, category: string, showEmergency: bool, showNonEmergency: bool)

  /** The page opens on the last week, every category, both kinds of report. */
  const Defaults := Criteria("week", "all", true, true)

  /** The time ranges: `'day'`, `'week'` and `'month'` have a window;
      `'all'` and anything else keep every report. */
  function Window(timeRange: string): (w: Option<int>)
    ensures timeRange == "day" ==> w == Some(DayMs)
    ensures timeRange == "week" ==> w == Some(7 * DayMs)
    ensures timeRange == "month" ==> w == Some(30 * DayMs)
    ensures timeRange !in {"day", "week", "month"} ==> w.None?
  {
    if timeRange == "day" then Some(DayMs)
    else if timeRange == "week" then Some(7 * DayMs)
    else if timeRange == "month" then Some(30 * DayMs)
    else None
  }

  predicate ShowKind(c: Criteria, r: Report) {
    (r.emergency && c.showEmergency) || (!r.emergency && c.showNonEmergency)
  }

  function InCategory(filter: string): Report -> bool {
    (r: Report) => MatchesCategory(r, filter)
  }

  function ShowsKind(c: Criteria): Report -> bool {
    (r: Report) => ShowKind(c, r)
  }

  /** `getFilteredReports`, stage by stage as the page computes it: the
      reports in the time range, of the category and of a kind shown, all of
      them, in store order. */
  function FilteredReports(reports: seq<Report>, now: int, c: Criteria): (r: seq<Report>)
    ensures IsSubsequence(r, reports)
    ensures forall i :: 0 <= i < |r| ==> Keep(now, c, r[i])
    ensures forall i :: 0 <= i < |reports| ==> (Keep(now, c, reports[i]) ==> reports[i] in r)
  {
    var byTime := InWindow(reports, now, Window(c.timeRange));
    var byCategory := if c.category == "all" then byTime else Filter(byTime, InCategory(c.category));
    var r := Filter(byCategory, ShowsKind(c));
    TimeStage(reports, now, c.timeRange);
    CategoryStage(reports, now, c);
    FilterFilter(reports, InRangeAndCategory(now, c), ShowsKind(c), Keeps(now, c));
    r
  }

  predicate Keep(now: int, c: Criteria, r: Report) {
    && (Window(c.timeRange).None? || now - r.timestamp < Window(c.timeRange).value)
    && MatchesCategory(r, c.category)
    && ShowKind(c, r)
  }

  function Keeps(now: int, c: Criteria): Report -> bool {
    (r: Report) => Keep(now, c, r)
  }

  function InRange(now: int, timeRange: string): Report -> bool {
    (r: Report) => Window(timeRange).None? || now - r.timestamp < Window(timeRange).value
  }

  function InRangeAndCategory(now: int, c: Criteria): Report -> bool {
    (r: Report) => (Window(c.timeRange).None? || now - r.timestamp < Window(c.timeRange).value) &&
                   MatchesCategory(r, c.category)
  }

  /** The three stages are one filter by their conjunction: the map shows
      the reports passing all of them, in store order. */
  lemma StagesAreConjunction(reports: seq<Report>, now: int, c: Criteria)
    ensures FilteredReports(reports, now, c) == Filter(reports, Keeps(now, c))
    ensures IsSubsequence(FilteredReports(reports, now, c), reports)
  {
    TimeStage(reports, now, c.timeRange);
    CategoryStage(reports, now, c);
    FilterFilter(reports, InRangeAndCategory(now, c), ShowsKind(c), Keeps(now, c));
  }

  /** The time stage is a filter by `InRange`. */
  lemma TimeStage(reports: seq<Report>, now: int, timeRange: string)
    ensures InWindow(reports, now, Window(timeRange)) == Filter(reports, InRange(now, timeRange))
  {
    if Window(timeRange).Some? {
      FilterExt(reports, YoungerThan(now, Window(timeRange).value), InRange(now, timeRange));
    }
  }

  /** The time and category stages together are a filter by `InRangeAndCategory`. */
  lemma CategoryStage(reports: seq<Report>, now: int, c: Criteria)
    requires InWindow(reports, now, Window(c.timeRange)) == Filter(reports, InRange(now, c.timeRange))
    ensures (var byTime := InWindow(reports, now, Window(c.timeRange));
             if c.category == "all" then byTime else Filter(byTime, InCategory(c.category)))
            == Filter(reports, InRangeAndCategory(now, c))
  {
    if c.category == "all" {
      FilterExt(reports, InRange(now, c.timeRange), InRangeAndCategory(now, c));
    } else {
      FilterFilter(reports, InRange(now, c.timeRange), InCategory(c.category), InRangeAndCategory(now, c));
    }
  }

  /** Both toggles off hide everything. */
  lemma NoKindShown(reports: seq<Report>, now: int, c: Criteria)
    requires !c.showEmergency && !c.showNonEmergency
    ensures FilteredReports(reports, now, c) == []
  {
  }

  /** Both toggles on hide nothing: the map shows the time and category stages. */
  lemma BothKindsShown(reports: seq<Report>, now: int, c: Criteria)
    requires c.showEmergency && c.showNonEmergency
    ensures FilteredReports(reports, now, c) == Filter(reports, InRangeAndCategory(now, c))
  {
    StagesAreConjunction(reports, now, c);
    FilterExt(reports, Keeps(now, c), InRangeAndCategory(now, c));
  }

  /** `reportsByCategory`: the shown reports grouped under their category. */
  function ReportsByCategory(shown: seq<Report>): (g: seq<(string, seq<Report>)>)
    ensures Keys(g) == Distinct(MapSeq(shown, CategoryKey))
    ensures forall i :: 0 <= i < |g| ==> g[i].1 == Filter(shown, KeyIs(CategoryKey, g[i].0))
    ensures SumSizes(g) == |shown|
  {
    GroupBy(shown, CategoryKey)
  }

  /** Every shown report sits in the group of its own category and in no
      other, each group keeps store order, and no group is empty. */
  lemma GroupsPartitionShown(shown: seq<Report>, r: Report)
    requires r in shown
    ensures CategoryKey(r) in Keys(ReportsByCategory(shown))
    ensures forall i :: 0 <= i < |ReportsByCategory(shown)| ==>
      (r in ReportsByCategory(shown)[i].1 <==> ReportsByCategory(shown)[i].0 == CategoryKey(r))
    ensures forall i :: 0 <= i < |ReportsByCategory(shown)| ==>
      IsSubsequence(ReportsByCategory(shown)[i].1, shown) && |ReportsByCategory(shown)[i].1| > 0
  {
    ExactlyOneGroup(shown, CategoryKey, r);
    GroupsNonEmpty(shown, CategoryKey);
  }

  /** A group's entry in the side list: its first three reports, and the
      number behind the "+k more incidents" line when there are more. */
  function Preview(group: seq<Report>): (p: (seq<Report>, Option<nat>))
    ensures |p.0| <= 3 && |p.0| <= |group| && p.0 == group[..|p.0|]
    ensures p.1.Some? <==> |group| > 3
    ensures |group| > 3 ==> |p.0| == 3
    ensures |p.0| + p.1.GetOr(0) == |group|
  {
    var shown := Take(group, 3);
    assert shown == group[..|shown|];
    (shown, if |group| > 3 then Some(|group| - 3) else None)
  }
}
