/** The report predicates the list, map, dashboard and analytics pages share:
    the category a report is filed under, the search box, the category,
    status and emergency filters, the time windows, and the category list of
    the filter drop-downs. */
module Queries {
  import opened Wrappers
  import opened Seqs
  import opened Text
  import opened Grouping
  import opened Reports

  /** `report.category || 'Uncategorized'`: the name a report is grouped,
      counted and listed under. An empty category counts as missing. */
  function CategoryKey(r: Report): (k: string)
    ensures k != ""
    ensures Truthy(r.category) ==> k == r.category.value
    ensures !Truthy(r.category) ==> k == "Uncategorized"
  {
    OrElse(r.category, "Uncategorized")
  }

  /** The search box: an empty term matches everything; otherwise the
      lower-cased term must occur in the lower-cased description, or in the
      category or the address when those are present and non-empty. */
  predicate MatchesSearch(r: Report, term: string) {
    || term == ""
    || Contains(Lower(r.description), Lower(term))
    || (Truthy(r.category) && Contains(Lower(r.category.value), Lower(term)))
    || (Truthy(r.location.address) && Contains(Lower(r.location.address.value), Lower(term)))
  }

  /** The search compared with the substring relation itself. */
  lemma SearchMeaning(r: Report, term: string)
    ensures MatchesSearch(r, term) <==>
      || term == ""
      || Occurs(Lower(r.description), Lower(term))
      || (Truthy(r.category) && Occurs(Lower(r.category.value), Lower(term)))
      || (Truthy(r.location.address) && Occurs(Lower(r.location.address.value), Lower(term)))
  {
  }

  /** The search ignores the case of the term: upper-casing it changes nothing. */
  lemma SearchIgnoresCase(r: Report, term: string)
    ensures MatchesSearch(r, Upper(term)) == MatchesSearch(r, term)
  {
    LowerOfUpper(term);
  }

  /** The search never looks at the fallback name: a report without a
      category matches a term only through its description or address, so
      the text 'Uncategorized' does not find it. */
  lemma SearchSkipsFallbackCategory(r: Report, term: string)
    requires !Truthy(r.category)
    ensures MatchesSearch(r, term) <==>
      || term == ""
      || Contains(Lower(r.description), Lower(term))
      || (Truthy(r.location.address) && Contains(Lower(r.location.address.value), Lower(term)))
  {
  }

  /** The category drop-down: `'all'`, the exact category, or no category
      when the filter is `'Uncategorized'`. */
  predicate MatchesCategory(r: Report, filter: string) {
    filter == "all" || r.category == Some(filter) || (!Truthy(r.category) && filter == "Uncategorized")
  }

  /** Apart from `'all'` and the empty string, which the drop-down never
      offers, filtering by category selects exactly the reports listed
      under that category. */
  lemma CategoryFilterIsKey(r: Report, filter: string)
    requires filter != "all" && filter != ""
    ensures MatchesCategory(r, filter) <==> CategoryKey(r) == filter
  {
  }

  /** The status drop-down: `'all'` or the exact status name. */
  predicate MatchesStatus(r: Report, filter: string) {
    filter == "all" || StatusName(r.status) == filter
  }

  /** Filtering by a status name selects exactly the reports in that status. */
  lemma StatusFilterIsStatus(r: Report, s: Status)
    ensures MatchesStatus(r, StatusName(s)) <==> r.status == s
  {
    StatusNameRoundTrip(r.status, s);
  }

  /** The emergency drop-down: `'all'`, `'emergency'` or `'non-emergency'`. */
  predicate MatchesEmergency(r: Report, filter: string) {
    || filter == "all"
    || (filter == "emergency" && r.emergency)
    || (filter == "non-emergency" && !r.emergency)
  }

  /** The emergency filter's three values, and every other value matching nothing. */
  lemma EmergencyFilterValues(r: Report, filter: string)
    ensures MatchesEmergency(r, "all")
    ensures MatchesEmergency(r, "emergency") <==> r.emergency
    ensures MatchesEmergency(r, "non-emergency") <==> !r.emergency
    ensures filter !in {"all", "emergency", "non-emergency"} ==> !MatchesEmergency(r, filter)
  {
  }

  /** `(now - report.timestamp) < windowMs`. */
  function YoungerThan(now: int, windowMs: int): Report -> bool {
    (r: Report) => now - r.timestamp < windowMs
  }

  /** The reports strictly younger than the window, in store order; the page
      keeps everything when its time range has no window. */
  function InWindow(reports: seq<Report>, now: int, window: Option<int>): (r: seq<Report>)
    ensures IsSubsequence(r, reports)
    ensures forall i :: 0 <= i < |r| ==> window.None? || now - r[i].timestamp < window.value
    ensures forall i :: 0 <= i < |reports| ==>
      ((window.None? || now - reports[i].timestamp < window.value) ==> reports[i] in r)
    ensures window.None? ==> r == reports
  {
    match window
    case None => SubsequenceRefl(reports); reports
    case Some(w) => Filter(reports, YoungerThan(now, w))
  }

  /** A longer window keeps every report a shorter one keeps, in the same order. */
  lemma WindowsNest(reports: seq<Report>, now: int, w1: int, w2: int)
    requires w1 <= w2
    ensures IsSubsequence(InWindow(reports, now, Some(w1)), InWindow(reports, now, Some(w2)))
  {
    FilterMonotone(reports, YoungerThan(now, w1), YoungerThan(now, w2));
  }

  /** A report exactly one window old is outside it: the bound is strict. */
  lemma WindowBoundIsStrict(reports: seq<Report>, now: int, w: int, i: nat)
    requires i < |reports| && reports[i].timestamp == now - w
    requires forall j :: 0 <= j < |reports| && j != i ==> reports[j] != reports[i]
    ensures reports[i] !in InWindow(reports, now, Some(w))
  {
  }

  /** `['all', ...new Set(reports.map(r => r.category || 'Uncategorized'))]`:
      the options of the category drop-downs, the categories listed once each
      in the order in which they first occur among the reports. */
  function CategoryOptions(reports: seq<Report>): (opts: seq<string>)
    ensures |opts| >= 1 && opts[0] == "all"
    ensures NoDuplicates(opts[1..])
    ensures InFirstAppearanceOrder(opts[1..], MapSeq(reports, CategoryKey))
    ensures forall i :: 0 <= i < |reports| ==> CategoryKey(reports[i]) in opts[1..]
    ensures forall i :: 1 <= i < |opts| ==> exists j :: 0 <= j < |reports| && CategoryKey(reports[j]) == opts[i]
  {
    var d := Distinct(MapSeq(reports, CategoryKey));
    var opts := ["all"] + d;
    assert opts[1..] == d;
    forall i | 1 <= i < |opts|
      ensures exists j :: 0 <= j < |reports| && CategoryKey(reports[j]) == opts[i]
    {
      assert opts[i] == d[i - 1];
      KeyOfSomeReport(reports, d[i - 1]);
    }
    opts
  }

  lemma KeyOfSomeReport(reports: seq<Report>, k: string)
    requires k in MapSeq(reports, CategoryKey)
    ensures exists j :: 0 <= j < |reports| && CategoryKey(reports[j]) == k
  {
    var j :| 0 <= j < |reports| && MapSeq(reports, CategoryKey)[j] == k;
  }

  /** The option `'all'` is listed twice exactly when some report's category
      is literally `'all'`, and that category then cannot be told apart from
      the option meaning every category. */
  lemma CategoryOptionsDuplicateAll(reports: seq<Report>)
    ensures NoDuplicates(CategoryOptions(reports)) <==>
      forall i :: 0 <= i < |reports| ==> CategoryKey(reports[i]) != "all"
  {
    var opts := CategoryOptions(reports);
    if forall i :: 0 <= i < |reports| ==> CategoryKey(reports[i]) != "all" {
      forall i, j | 0 <= i < j < |opts| ensures opts[i] != opts[j] {
        if i == 0 {
          var k :| 0 <= k < |reports| && CategoryKey(reports[k]) == opts[j];
        } else {
          TailIndices(opts, i, j);
        }
      }
    } else {
      var i :| 0 <= i < |reports| && CategoryKey(reports[i]) == "all";
      HeadRepeated(opts, "all");
    }
  }

  function HasStatus(s: Status): Report -> bool {
    (r: Report) => r.status == s
  }

  /** `reports.filter(r => r.status === s)`. */
  function WithStatus(reports: seq<Report>, s: Status): (r: seq<Report>)
    ensures IsSubsequence(r, reports)
    ensures forall i :: 0 <= i < |r| ==> r[i].status == s
    ensures forall i :: 0 <= i < |reports| ==> (reports[i].status == s ==> reports[i] in r)
  {
    Filter(reports, HasStatus(s))
  }

  /** The three status lists split a list of reports: their lengths add up to its length. */
  lemma {:induction false} StatusesPartition(reports: seq<Report>)
    ensures |WithStatus(reports, New)| + |WithStatus(reports, Reviewing)| + |WithStatus(reports, Resolved)| == |reports|
  {
    if |reports| > 0 {
      StatusesPartition(reports[1..]);
    }
  }

  function IsEmergency(r: Report): bool { r.emergency }

  /** `reports.filter(r => r.emergency)`. */
  function Emergencies(reports: seq<Report>): (r: seq<Report>)
    ensures IsSubsequence(r, reports)
    ensures forall i :: 0 <= i < |r| ==> r[i].emergency
    ensures forall i :: 0 <= i < |reports| ==> (reports[i].emergency ==> reports[i] in r)
  {
    Filter(reports, IsEmergency)
  }
}
