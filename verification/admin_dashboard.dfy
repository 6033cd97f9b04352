/** The admin dashboard: one time frame, and the figures computed from the
    reports inside it. */
module AdminDashboard {
  import opened Wrappers
  import opened Seqs
  import opened Grouping
  import opened Ranking
  import opened Percent
  import opened Reports
  import opened Queries

  /** The time frames: `'today'`, `'week'` and `'month'` have a window;
      anything else, `'all'` included, keeps every report. */
  function Window(frame: string): (w: Option<int>)
    ensures frame == "today" ==> w == Some(DayMs)
    ensures frame == "week" ==> w == Some(7 * DayMs)
    ensures frame == "month" ==> w == Some(30 * DayMs)
    ensures frame !in {"today", "week", "month"} ==> w.None?
  {
    if frame == "today" then Some(DayMs)
    else if frame == "week" then Some(7 * DayMs)
    else if frame == "month" then Some(30 * DayMs)
    else None
  }

  /** `getFilteredReports(timeFrame)`: the reports younger than the frame's
      window, all of them, in store order. */
  function FilteredReports(reports: seq<Report>, now: int, frame: string): (r: seq<Report>)
    ensures IsSubsequence(r, reports)
    ensures forall i :: 0 <= i < |r| ==> Window(frame).None? || now - r[i].timestamp < Window(frame).value
    ensures forall i :: 0 <= i < |reports| ==>
      ((Window(frame).None? || now - reports[i].timestamp < Window(frame).value) ==> reports[i] in r)
  {
    InWindow(reports, now, Window(frame))
  }

  /** `resolvedPercentage`: the share of resolved reports in the frame,
      rounded to the nearest whole percent. */
  function ResolvedPercentage(filtered: seq<Report>): (p: nat)
    ensures p <= 100
    ensures |filtered| == 0 ==> p == 0
    ensures 0 < |filtered| == |WithStatus(filtered, Resolved)| ==> p == 100
    ensures |filtered| > 0 ==>
      IsRoundedPercent(p, |WithStatus(filtered, Resolved)|, |filtered|)
  {
    RoundPercent(|WithStatus(filtered, Resolved)|, |filtered|)
  }

  /** The `categories` object: one counter per category in the frame, in
      first-appearance order, each the number of reports filed under it. */
  function CategoryCounts(filtered: seq<Report>): (c: seq<(string, nat)>)
    ensures Keys(c) == Distinct(MapSeq(filtered, CategoryKey))
    ensures forall i :: 0 <= i < |c| ==> c[i].1 == |Filter(filtered, KeyIs(CategoryKey, c[i].0))|
    ensures SumCounts(c) == |filtered|
  {
    CountBy(filtered, CategoryKey)
  }

  /** `sortedCategories`: the five counters with the highest counts, highest
      first, or all of them when there are fewer; nothing left out has a
      higher count than anything shown. */
  function SortedCategories(filtered: seq<Report>): (s: seq<(string, nat)>)
    ensures var c := CategoryCounts(filtered);
      && |s| == (if |c| < 5 then |c| else 5)
      && NonIncreasing(s)
      && multiset(s) <= multiset(c)
    ensures var c := CategoryCounts(filtered);
      forall j :: 0 <= j < |c| && c[j] !in s ==> forall i :: 0 <= i < |s| ==> s[i].1 >= c[j].1
  {
    var c := CategoryCounts(filtered);
    var s := TopFive(c);
    LeftOutRanksLower(c, s);
    s
  }

  /** The recent-incidents card: the first three reports of the frame, in store order. */
  function Recent(filtered: seq<Report>): (r: seq<Report>)
    ensures |r| == (if |filtered| < 3 then |filtered| else 3)
    ensures r == filtered[..|r|]
  {
    var r := Take(filtered, 3);
    assert r == filtered[..|r|];
    r
  }

  /** The new, reviewing and resolved lists split the frame: their sizes add
      up to `totalReports`, and each report of the frame is in the list of its status. */
  lemma StatusListsPartition(reports: seq<Report>, now: int, frame: string)
    ensures var f := FilteredReports(reports, now, frame);
      |WithStatus(f, New)| + |WithStatus(f, Reviewing)| + |WithStatus(f, Resolved)| == |f|
    ensures var f := FilteredReports(reports, now, frame);
      forall i :: 0 <= i < |f| ==> f[i] in WithStatus(f, f[i].status)
  {
    StatusesPartition(FilteredReports(reports, now, frame));
  }

  /** Every report in the frame is counted under its own category. */
  lemma CategoriesCountEachReport(reports: seq<Report>, now: int, frame: string, r: Report)
    requires r in FilteredReports(reports, now, frame)
    ensures CategoryKey(r) in Keys(CategoryCounts(FilteredReports(reports, now, frame)))
  {
    var filtered := FilteredReports(reports, now, frame);
    var j :| 0 <= j < |filtered| && filtered[j] == r;
    assert MapSeq(filtered, CategoryKey)[j] == CategoryKey(r);
  }

  /** The frame `'today'` leaves out a report filed exactly one day before
      load at any time from load on. */
  lemma OneDayOldNeverToday(reports: seq<Report>, t0: int, now: int, i: nat)
    requires t0 <= now && i < |reports| && reports[i].timestamp == t0 - DayMs
    ensures reports[i] !in FilteredReports(reports, now, "today")
  {
  }

  /** The mock report "3" is such a report. */
  lemma SeedReportThreeIsOneDayOld(t0: int)
    ensures SeedReports(t0, MockTexts)[2].id == "3" && SeedReports(t0, MockTexts)[2].timestamp == t0 - DayMs
  {
  }
}
