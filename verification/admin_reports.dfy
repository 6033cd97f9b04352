/** The admin report list: four filters combined by conjunction, and the
    status change that keeps the open detail view in step with the store. */
module AdminReports {
  import opened Wrappers
  import opened Seqs
  import opened Reports
  import opened Queries

  /** The page's filter state: search text and three drop-down values. */
  datatype Criteria = Criteria(search: string, category: string, status: string, emergency: string)

  /** The state the page opens with. */
  const Defaults := Criteria("", "all", "all", "all")

  predicate Keep(c: Criteria, r: Report) {
    && MatchesSearch(r, c.search)
    && MatchesCategory(r, c.category)
    && MatchesStatus(r, c.status)
    && MatchesEmergency(r, c.emergency)
  }

  function Keeps(c: Criteria): Report -> bool {
    (r: Report) => Keep(c, r)
  }

  /** `filteredReports`: the reports passing all four filters, in store order. */
  function FilteredReports(reports: seq<Report>, c: Criteria): (r: seq<Report>)
    ensures IsSubsequence(r, reports)
    ensures forall i :: 0 <= i < |r| ==>
      MatchesSearch(r[i], c.search) && MatchesCategory(r[i], c.category) &&
      MatchesStatus(r[i], c.status) && MatchesEmergency(r[i], c.emergency)
    ensures forall i :: 0 <= i < |reports| ==> (Keep(c, reports[i]) ==> reports[i] in r)
  {
    Filter(reports, Keeps(c))
  }

  /** With every filter at its initial value the page lists every report. */
  lemma DefaultsKeepAll(reports: seq<Report>)
    ensures FilteredReports(reports, Defaults) == reports
  {
    forall i | 0 <= i < |reports| ensures Keep(Defaults, reports[i]) {
    }
  }

  /** Narrowing the search to one status lists exactly the matching reports in that status. */
  lemma StatusFilterSelectsStatus(reports: seq<Report>, c: Criteria, s: Status, i: nat)
    requires i < |reports| && c.status == StatusName(s)
    requires MatchesSearch(reports[i], c.search) && MatchesCategory(reports[i], c.category)
    requires MatchesEmergency(reports[i], c.emergency)
    ensures reports[i] in FilteredReports(reports, c) <==> reports[i].status == s
  {
    StatusFilterIsStatus(reports[i], s);
    var r := FilteredReports(reports, c);
    if reports[i] in r {
      var k :| 0 <= k < |r| && r[k] == reports[i];
    }
  }

  /** `handleStatusChange`'s update of the open detail view: only a selected
      report with the updated id takes the new status. */
  function SyncSelected(selected: Option<Report>, id: string, status: Status): (s: Option<Report>)
    ensures s.None? <==> selected.None?
    ensures selected.Some? && selected.value.id == id ==> s == Some(selected.value.(status := status))
    ensures selected.Some? && selected.value.id != id ==> s == selected
  {
    if selected.Some? && selected.value.id == id then Some(selected.value.(status := status)) else selected
  }

  /** `handleStatusChange`: update the store, then the detail view. */
  function HandleStatusChange(st: Store, selected: Option<Report>, id: string, status: Status): (r: (Store, Option<Report>))
    ensures r.0 == UpdateReportStatus(st, id, status)
    ensures r.1 == SyncSelected(selected, id, status)
  {
    (UpdateReportStatus(st, id, status), SyncSelected(selected, id, status))
  }

  /** A detail view showing a report of the store still shows a report of
      the store after the status change. */
  lemma SelectionStaysInStore(st: Store, selected: Option<Report>, id: string, status: Status)
    requires selected.Some? && selected.value in st.reports
    ensures var (st', sel') := HandleStatusChange(st, selected, id, status);
      sel'.Some? && sel'.value in st'.reports
  {
    var k :| 0 <= k < |st.reports| && st.reports[k] == selected.value;
    var st' := UpdateReportStatus(st, id, status);
    assert st'.reports[k] == SyncSelected(selected, id, status).value;
  }
}
