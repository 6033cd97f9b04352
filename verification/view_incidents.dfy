/** The public incident list: the admin list's filters without the emergency one. */
module ViewIncidents {
  import opened Seqs
  import opened Reports
  import opened Queries
  import AdminReports

  datatype Criteria = Criteria(search: string, category: string, status: string)

  const Defaults := Criteria("", "all", "all")

  predicate Keep(c: Criteria, r: Report) {
    MatchesSearch(r, c.search) && MatchesCategory(r, c.category) && MatchesStatus(r, c.status)
  }

  function Keeps(c: Criteria): Report -> bool {
    (r: Report) => Keep(c, r)
  }

  /** `filteredReports`: the reports passing search, category and status, in store order. */
  function FilteredReports(reports: seq<Report>, c: Criteria): (r: seq<Report>)
    ensures IsSubsequence(r, reports)
    ensures forall i :: 0 <= i < |r| ==>
      MatchesSearch(r[i], c.search) && MatchesCategory(r[i], c.category) && MatchesStatus(r[i], c.status)
    ensures forall i :: 0 <= i < |reports| ==> (Keep(c, reports[i]) ==> reports[i] in r)
  {
    Filter(reports, Keeps(c))
  }

  /** With the initial filters every report is listed. */
  lemma DefaultsKeepAll(reports: seq<Report>)
    ensures FilteredReports(reports, Defaults) == reports
  {
    forall i | 0 <= i < |reports| ensures Keep(Defaults, reports[i]) {
    }
  }

  /** The emergency flag plays no part: flipping it on any report changes nothing. */
  lemma EmergencyIgnored(c: Criteria, r: Report)
    ensures Keep(c, r.(emergency := !r.emergency)) == Keep(c, r)
  {
  }

  /** The public list is the admin list with the emergency filter at `'all'`. */
  lemma SameAsAdminList(reports: seq<Report>, c: Criteria)
    ensures FilteredReports(reports, c) ==
      AdminReports.FilteredReports(reports, AdminReports.Criteria(c.search, c.category, c.status, "all"))
  {
    FilterExt(reports, Keeps(c), AdminReports.Keeps(AdminReports.Criteria(c.search, c.category, c.status, "all")));
  }
}
