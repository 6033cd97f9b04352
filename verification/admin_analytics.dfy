/** The analytics page: one time range, and the counts and rates computed
    from the reports inside it. */
module AdminAnalytics {
  import opened Wrappers
  import opened Seqs
  import opened Grouping
  import opened Ranking
  import opened Percent
  import opened Reports
  import opened Queries

  const MonthMs := 30 * DayMs

  /** The time ranges: `'week'`, `'month'`, and `'year'` as twelve 30-day
      months; `'all'` and anything else keep every report. */
  function Window(range: string): (w: Option<int>)
    ensures range == "week" ==> w == Some(7 * DayMs)
    ensures range == "month" ==> w == Some(30 * DayMs)
    ensures range == "year" ==> w == Some(360 * DayMs)
    ensures range !in {"week", "month", "year"} ==> w.None?
  {
    if range == "week" then Some(7 * DayMs)
    else if range == "month" then Some(MonthMs)
    else if range == "year" then Some(12 * MonthMs)
    else None
  }

  /** The report list `getAnalyticsData` starts from: the reports younger
      than the range's window, all of them, in store order. */
  function FilteredReports(reports: seq<Report>, now: int, range: string): (r: seq<Report>)
    ensures IsSubsequence(r, reports)
    ensures forall i :: 0 <= i < |r| ==> Window(range).None? || now - r[i].timestamp < Window(range).value
    ensures forall i :: 0 <= i < |reports| ==>
      ((Window(range).None? || now - reports[i].timestamp < Window(range).value) ==> reports[i] in r)
  {
    InWindow(reports, now, Window(range))
  }

  /** The 'year' range is 360 days long: a report between 360 and 365 days
      old is left out of it. */
  lemma YearIsThreeHundredSixtyDays(reports: seq<Report>, now: int, i: nat)
    requires i < |reports| && 360 * DayMs <= now - reports[i].timestamp < 365 * DayMs
    ensures reports[i] !in FilteredReports(reports, now, "year")
  {
  }

  /** `categoryData`: one counter per category in the range, in
      first-appearance order, each the number of reports filed under it. */
  function CategoryData(filtered: seq<Report>): (c: seq<(string, nat)>)
    ensures Keys(c) == Distinct(MapSeq(filtered, CategoryKey))
    ensures forall i :: 0 <= i < |c| ==> c[i].1 == |Filter(filtered, KeyIs(CategoryKey, c[i].0))|
    ensures SumCounts(c) == |filtered|
  {
    CountBy(filtered, CategoryKey)
  }

  /** The `statusData` object with the given counters for new, reviewing and resolved. */
  function Counters(n: nat, v: nat, r: nat): seq<(string, nat)> {
    [("new", n), ("reviewing", v), ("resolved", r)]
  }

  /** One `forEach` step on the three counters bumps the one named by the status. */
  lemma StatusBump(n: nat, v: nat, r: nat, s: Status)
    ensures NoDuplicates(Keys(Counters(n, v, r)))
    ensures AddToCount(Counters(n, v, r), StatusName(s)) ==
      match s
      case New => Counters(n + 1, v, r)
      case Reviewing => Counters(n, v + 1, r)
      case Resolved => Counters(n, v, r + 1)
  {
    var t := Counters(n, v, r);
    assert Keys(t) == ["new", "reviewing", "resolved"];
  }

  /** `statusData`: the counters start at zero for all three statuses and each
      report bumps the counter of its own status, so the keys are always the
      three statuses and each value is the number of reports in that status. */
  function StatusData(filtered: seq<Report>): (c: seq<(string, nat)>)
    ensures c == Counters(|WithStatus(filtered, New)|, |WithStatus(filtered, Reviewing)|,
                          |WithStatus(filtered, Resolved)|)
    decreases |filtered|
  {
    if |filtered| == 0 then Counters(0, 0, 0)
    else
      var n := |filtered| - 1;
      var before := StatusData(filtered[..n]);
      var s := filtered[n].status;
      StatusBump(|WithStatus(filtered[..n], New)|, |WithStatus(filtered[..n], Reviewing)|,
                 |WithStatus(filtered[..n], Resolved)|, s);
      SnocCounts(filtered);
      AddToCount(before, StatusName(s))
  }

  /** Counting one more report adds one to the counter of its status only. */
  lemma SnocCounts(filtered: seq<Report>)
    requires |filtered| > 0
    ensures var n := |filtered| - 1; var s := filtered[n].status;
      && |WithStatus(filtered, New)| == |WithStatus(filtered[..n], New)| + (if s == New then 1 else 0)
      && |WithStatus(filtered, Reviewing)| == |WithStatus(filtered[..n], Reviewing)| + (if s == Reviewing then 1 else 0)
      && |WithStatus(filtered, Resolved)| == |WithStatus(filtered[..n], Resolved)| + (if s == Resolved then 1 else 0)
  {
    var n := |filtered| - 1;
    assert filtered == filtered[..n] + [filtered[n]];
    FilterSnoc(filtered[..n], filtered[n], HasStatus(New));
    FilterSnoc(filtered[..n], filtered[n], HasStatus(Reviewing));
    FilterSnoc(filtered[..n], filtered[n], HasStatus(Resolved));
  }

  lemma CountersSum(n: nat, v: nat, r: nat)
    ensures Keys(Counters(n, v, r)) == ["new", "reviewing", "resolved"]
    ensures SumCounts(Counters(n, v, r)) == n + v + r
  {
    var c := Counters(n, v, r);
    var c2 := [("new", n), ("reviewing", v)];
    var c1 := [("new", n)];
    assert c[..2] == c2 && c2[..1] == c1 && c1[..0] == [];
    assert SumCounts(c1) == n;
    assert SumCounts(c2) == n + v;
  }

  /** The keys of `statusData` are always the three statuses, and its
      counters add up to `totalReports`. */
  lemma StatusDataSums(filtered: seq<Report>)
    ensures Keys(StatusData(filtered)) == ["new", "reviewing", "resolved"]
    ensures SumCounts(StatusData(filtered)) == |filtered|
  {
    StatusesPartition(filtered);
    CountersSum(|WithStatus(filtered, New)|, |WithStatus(filtered, Reviewing)|, |WithStatus(filtered, Resolved)|);
  }

  /** `emergencyPercentage`: the share of emergency reports, rounded to the nearest whole percent. */
  function EmergencyPercentage(filtered: seq<Report>): (p: nat)
    ensures p <= 100
    ensures |filtered| == 0 ==> p == 0
    ensures |filtered| > 0 ==>
      IsRoundedPercent(p, |Emergencies(filtered)|, |filtered|)
  {
    RoundPercent(|Emergencies(filtered)|, |filtered|)
  }

  /** `resolutionRate`: the share of resolved reports, rounded to the nearest whole percent. */
  function ResolutionRate(filtered: seq<Report>): (p: nat)
    ensures p <= 100
    ensures |filtered| == 0 ==> p == 0
    ensures |filtered| > 0 ==>
      IsRoundedPercent(p, |WithStatus(filtered, Resolved)|, |filtered|)
  {
    RoundPercent(|WithStatus(filtered, Resolved)|, |filtered|)
  }

  /** What `getAnalyticsData` returns, without the locale-dependent daily trend. */
  datatype Analytics = Analytics(
    categoryData: seq<(string, nat)>,
    statusData: seq<(string, nat)>,
    totalReports: nat,
    emergencyPercentage: nat,
    resolutionRate: nat)

  function GetAnalyticsData(reports: seq<Report>, now: int, range: string): (a: Analytics)
    ensures a.totalReports == |FilteredReports(reports, now, range)|
    ensures SumCounts(a.categoryData) == a.totalReports
    ensures SumCounts(a.statusData) == a.totalReports
    ensures a.emergencyPercentage <= 100 && a.resolutionRate <= 100
    ensures a.totalReports == 0 ==> a.emergencyPercentage == 0 && a.resolutionRate == 0
    ensures var f := FilteredReports(reports, now, range);
      a.categoryData == CategoryData(f) && a.statusData == StatusData(f)
    ensures var f := FilteredReports(reports, now, range);
      |f| > 0 ==>
        && IsRoundedPercent(a.emergencyPercentage, |Emergencies(f)|, |f|)
        && IsRoundedPercent(a.resolutionRate, |WithStatus(f, Resolved)|, |f|)
  {
    var filtered := FilteredReports(reports, now, range);
    StatusDataSums(filtered);
    Analytics(
      CategoryData(filtered),
      StatusData(filtered),
      |filtered|,
      EmergencyPercentage(filtered),
      ResolutionRate(filtered))
  }

  /** The top-categories card: the five counters of `categoryData` with the
      highest counts, highest first, or all of them when there are fewer;
      nothing left out has a higher count than anything shown. */
  function TopCategories(a: Analytics): (t: seq<(string, nat)>)
    ensures |t| == (if |a.categoryData| < 5 then |a.categoryData| else 5)
    ensures NonIncreasing(t) && multiset(t) <= multiset(a.categoryData)
    ensures forall j :: 0 <= j < |a.categoryData| && a.categoryData[j] !in t ==>
      forall i :: 0 <= i < |t| ==> t[i].1 >= a.categoryData[j].1
  {
    var t := TopFive(a.categoryData);
    LeftOutRanksLower(a.categoryData, t);
    t
  }
}
