/** The in-memory store behind the whole application: incident reports and
    safety tips, the operations that add and update them, the radius query,
    and the mock data the store starts from. Identifiers from `uuidv4()` and
    the clock `Date.now()` are parameters of the operations that use them. */
module Reports {
  import opened Wrappers
  import opened Seqs

  /** The three review states of a report. */
  datatype Status = New | Reviewing | Resolved

  /** The string each status carries in the source (`'new'`, ...). */
  function StatusName(s: Status): string {
    match s
    case New => "new"
    case Reviewing => "reviewing"
    case Resolved => "resolved"
  }

  /** The status a string names, if any. */
  function ParseStatus(name: string): (r: Option<Status>)
    ensures r.Some? ==> StatusName(r.value) == name
    ensures r.None? ==> name !in {"new", "reviewing", "resolved"}
  {
    if name == "new" then Some(New)
    else if name == "reviewing" then Some(Reviewing)
    else if name == "resolved" then Some(Resolved)
    else None
  }

  /** Status names are distinct and read back as the status they name. */
  lemma StatusNameRoundTrip(s: Status, t: Status)
    ensures ParseStatus(StatusName(s)) == Some(s)
    ensures StatusName(s) == StatusName(t) ==> s == t
  {
  }

  datatype Location = Location(latitude: real, longitude: real, address: Option<string>)

  datatype Report = Report(
    id: string,
    description: string,
    location: Location,
    timestamp: int,
    mediaUrls: Option<seq<string>>,
    status: Status,
    emergency: bool,
    category: Option<string>,
    anonymousId: Option<string>)

  /** What a caller hands to `addReport`: a report without id, timestamp and status. */
  datatype ReportDraft = ReportDraft(
    description: string,
    location: Location,
    mediaUrls: Option<seq<string>>,
    emergency: bool,
    category: Option<string>,
    anonymousId: Option<string>)

  datatype SafetyTip = SafetyTip(id: string, title: string, content: string, timestamp: int, category: string)

  /** What a caller hands to `addSafetyTip`: a tip without id and timestamp. */
  datatype TipDraft = TipDraft(title: string, content: string, category: string)

  /** The provider's state: both collections, newest first, and the busy flag. */
  datatype Store = Store(reports: seq<Report>, tips: seq<SafetyTip>, loading: bool)

  function Id(r: Report): string { r.id }

  function Ids(reports: seq<Report>): (ids: seq<string>)
    ensures |ids| == |reports|
    ensures forall i :: 0 <= i < |reports| ==> ids[i] == reports[i].id
  {
    MapSeq(reports, Id)
  }

  /** The caller-supplied part of a report. */
  function DraftOf(r: Report): ReportDraft {
    ReportDraft(r.description, r.location, r.mediaUrls, r.emergency, r.category, r.anonymousId)
  }

  /** `addReport`: the draft spread first, then a fresh id, the current time
      and status `'new'`, prepended to the reports. */
  function AddReport(st: Store, draft: ReportDraft, id: string, now: int): (st': Store)
    ensures |st'.reports| == |st.reports| + 1
    ensures st'.reports[1..] == st.reports
    ensures st'.reports[0].id == id && st'.reports[0].timestamp == now && st'.reports[0].status == New
    ensures DraftOf(st'.reports[0]) == draft
    ensures st'.tips == st.tips && !st'.loading
  {
    var r := Report(id, draft.description, draft.location, now, draft.mediaUrls,
                    New, draft.emergency, draft.category, draft.anonymousId);
    Store([r] + st.reports, st.tips, false)
  }

  /** With a fresh id, adding a report keeps report ids unique. */
  lemma AddReportKeepsIdsUnique(st: Store, draft: ReportDraft, id: string, now: int)
    requires NoDuplicates(Ids(st.reports)) && id !in Ids(st.reports)
    ensures NoDuplicates(Ids(AddReport(st, draft, id, now).reports))
  {
    var ids := Ids(AddReport(st, draft, id, now).reports);
    assert ids[1..] == Ids(st.reports);
    forall i, j | 0 <= i < j < |ids| ensures ids[i] != ids[j] {
      if i == 0 {
        assert ids[j] == Ids(st.reports)[j - 1];
      } else {
        assert ids[i] == Ids(st.reports)[i - 1] && ids[j] == Ids(st.reports)[j - 1];
      }
    }
  }

  /** The `map` inside `updateReportStatus`: every report whose id matches gets
      the new status, every other report is kept as it is. */
  function SetStatus(reports: seq<Report>, id: string, status: Status): (r: seq<Report>)
    ensures |r| == |reports|
    ensures forall i :: 0 <= i < |reports| && reports[i].id == id ==>
      r[i] == reports[i].(status := status)
    ensures forall i :: 0 <= i < |reports| && reports[i].id != id ==> r[i] == reports[i]
  {
    if |reports| == 0 then []
    else
      var head := if reports[0].id == id then reports[0].(status := status) else reports[0];
      [head] + SetStatus(reports[1..], id, status)
  }

  /** `updateReportStatus`: only the reports change, and the store is idle afterwards. */
  function UpdateReportStatus(st: Store, id: string, status: Status): (st': Store)
    ensures st'.reports == SetStatus(st.reports, id, status)
    ensures st'.tips == st.tips && !st'.loading
  {
    Store(SetStatus(st.reports, id, status), st.tips, false)
  }

  /** An id that is not in the store changes nothing and is not an error. */
  lemma SetStatusAbsentId(reports: seq<Report>, id: string, status: Status)
    requires id !in Ids(reports)
    ensures SetStatus(reports, id, status) == reports
  {
    forall i | 0 <= i < |reports| ensures reports[i].id != id {
      assert Ids(reports)[i] == reports[i].id;
    }
  }

  /** Updating twice to the same status is updating once. */
  lemma SetStatusIdempotent(reports: seq<Report>, id: string, status: Status)
    ensures SetStatus(SetStatus(reports, id, status), id, status) == SetStatus(reports, id, status)
  {
  }

  /** Of two updates on one id, the last one wins. */
  lemma SetStatusLastWins(reports: seq<Report>, id: string, s1: Status, s2: Status)
    ensures SetStatus(SetStatus(reports, id, s1), id, s2) == SetStatus(reports, id, s2)
  {
  }

  /** An update keeps the order of ids and every caller-supplied field. */
  lemma SetStatusKeepsRest(reports: seq<Report>, id: string, status: Status)
    ensures Ids(SetStatus(reports, id, status)) == Ids(reports)
    ensures forall i :: 0 <= i < |reports| ==>
      DraftOf(SetStatus(reports, id, status)[i]) == DraftOf(reports[i]) &&
      SetStatus(reports, id, status)[i].timestamp == reports[i].timestamp
  {
  }

  /** `addSafetyTip`: the draft with a fresh id and the current time, prepended. */
  function AddSafetyTip(st: Store, draft: TipDraft, id: string, now: int): (st': Store)
    ensures |st'.tips| == |st.tips| + 1 && st'.tips[1..] == st.tips
    ensures st'.tips[0] == SafetyTip(id, draft.title, draft.content, now, draft.category)
    ensures st'.reports == st.reports && !st'.loading
  {
    Store(st.reports, [SafetyTip(id, draft.title, draft.content, now, draft.category)] + st.tips, false)
  }

  /** `getReportsByLocation`: the reports at most `radiusKm` from the point,
      in store order. `dist` stands for the great-circle distance in km
      between two (latitude, longitude) points. */
  function ReportsWithin(reports: seq<Report>, lat: real, lng: real, radiusKm: real,
                         dist: (real, real, real, real) -> real): (r: seq<Report>)
    ensures IsSubsequence(r, reports)
    ensures forall i :: 0 <= i < |r| ==>
      dist(lat, lng, r[i].location.latitude, r[i].location.longitude) <= radiusKm
    ensures forall i :: (0 <= i < |reports| &&
      dist(lat, lng, reports[i].location.latitude, reports[i].location.longitude) <= radiusKm) ==>
      reports[i] in r
  {
    Filter(reports, (x: Report) => dist(lat, lng, x.location.latitude, x.location.longitude) <= radiusKm)
  }

  /** A larger radius finds every report a smaller one finds, in the same order. */
  lemma ReportsWithinMonotone(reports: seq<Report>, lat: real, lng: real, r1: real, r2: real,
                              dist: (real, real, real, real) -> real)
    requires r1 <= r2
    ensures IsSubsequence(ReportsWithin(reports, lat, lng, r1, dist), ReportsWithin(reports, lat, lng, r2, dist))
  {
    FilterMonotone(reports,
      (x: Report) => dist(lat, lng, x.location.latitude, x.location.longitude) <= r1,
      (x: Report) => dist(lat, lng, x.location.latitude, x.location.longitude) <= r2);
  }

  const HourMs := 3_600_000
  const DayMs := 24 * 60 * 60 * 1000
  const WeekMs := 7 * DayMs

  /** The free text of a mock report: its description and its address. */
  datatype SeedText = SeedText(description: string, address: string)

  /** The descriptions and addresses of the five mock reports, in order. */
  const MockTexts: seq<SeedText> := [
    SeedText("Suspicious activity near the park entrance. Person in dark clothing looking into parked cars.",
             "Upper Lake, Bhopal, Madhya Pradesh"),
    SeedText("Hit and run accident involving a silver sedan. License plate partially visible: MP09**",
             "DB City Mall, Bhopal, Madhya Pradesh"),
    SeedText("Graffiti on public building wall, appears to be gang-related symbols.",
             "Collectorate Complex, Bhopal, Madhya Pradesh"),
    SeedText("Emergency: Person collapsed on sidewalk, appears unresponsive.",
             "New Market Area, Bhopal, Madhya Pradesh"),
    SeedText("Lost child, approximately 6 years old, wearing red jacket and blue jeans.",
             "Phoenix Citadel Mall, Bhopal, Madhya Pradesh")
  ]

  function Seed(id: string, text: SeedText, lat: real, lng: real,
                timestamp: int, status: Status, emergency: bool, category: string): Report {
    Report(id, text.description, Location(lat, lng, Some(text.address)), timestamp, None, status, emergency, Some(category), None)
  }

  /** The mock reports, with timestamps relative to `t0`, the time the module
      loads, and their free text taken from `texts` (`MockTexts` in the app). */
  function SeedReports(t0: int, texts: seq<SeedText>): (r: seq<Report>)
    requires |texts| == 5
    ensures |r| == 5
  {
    [ Seed("1", texts[0], 23.2599, 77.4126, t0 - HourMs * 2, New, false, "Suspicious Activity"),
      Seed("2", texts[1], 23.2315, 77.4219, t0 - HourMs * 5, Reviewing, true, "Traffic Incident"),
      Seed("3", texts[2], 23.2640, 77.4060, t0 - DayMs, Resolved, false, "Vandalism"),
      Seed("4", texts[3], 23.2470, 77.4030, t0 - 1_800_000, New, true, "Medical Emergency"),
      Seed("5", texts[4], 23.2340, 77.4200, t0 - 7_200_000, Reviewing, true, "Missing Person") ]
  }

  /** The free text of the mock tips, kept apart so that no proof carries it. */
  datatype TipText = TipText(title: string, content: string)

  const MockTipTexts: seq<TipText> := [
    TipText("Stay Safe After Dark",
            "When walking at night, stick to well-lit areas and main streets. Consider using ride-sharing services for late night transportation."),
    TipText("Secure Your Home While Away",
            "Going on vacation? Ask a trusted neighbor to collect mail and use timer lights to give the appearance someone is home."),
    TipText("Online Meeting Safety",
            "When meeting someone from online, always meet in a public place during daylight hours and let a friend know your plans.")
  ]

  /** The mock tips: ids "1" to "3", each in its own category, all published
      before `t0`, with their free text taken from `texts` (`MockTipTexts` in the app). */
  function SeedTips(t0: int, texts: seq<TipText>): (r: seq<SafetyTip>)
    requires |texts| == 3
    ensures |r| == 3 && r[0].id == "1" && r[1].id == "2" && r[2].id == "3"
    ensures forall i :: 0 <= i < |r| ==> r[i].timestamp < t0
    ensures forall i, j :: 0 <= i < j < |r| ==> r[i].category != r[j].category
  {
    [ SafetyTip("1", texts[0].title, texts[0].content, t0 - WeekMs, "Personal Safety"),
      SafetyTip("2", texts[1].title, texts[1].content, t0 - 2 * WeekMs, "Home Security"),
      SafetyTip("3", texts[2].title, texts[2].content, t0 - 3 * DayMs, "Digital Safety") ]
  }

  /** The seed reports carry the ids "1" to "5", pairwise distinct, and all lie in the past. */
  lemma SeedReportsWellFormed(t0: int, texts: seq<SeedText>)
    requires |texts| == 5
    ensures Ids(SeedReports(t0, texts)) == ["1", "2", "3", "4", "5"]
    ensures NoDuplicates(Ids(SeedReports(t0, texts)))
    ensures forall i :: 0 <= i < 5 ==> SeedReports(t0, texts)[i].timestamp < t0
  {
    var s := SeedReports(t0, texts);
    assert Ids(s) == ["1", "2", "3", "4", "5"];
    SeedIdsDistinct();
  }

  lemma SeedIdsDistinct()
    ensures NoDuplicates(["1", "2", "3", "4", "5"])
  {
    var ids := ["1", "2", "3", "4", "5"];
    forall i, j | 0 <= i < j < 5 ensures ids[i] != ids[j] {
      assert ids[i][0] != ids[j][0];
    }
  }

  /** The store as the provider first renders it. */
  function InitialStore(t0: int): Store {
    Store(SeedReports(t0, MockTexts), SeedTips(t0, MockTipTexts), false)
  }

  /** The mount effect: the store turns busy until the load timer fires. */
  function BeginInitialLoad(st: Store): (st': Store)
    ensures st'.loading && st'.reports == st.reports && st'.tips == st.tips
  {
    st.(loading := true)
  }

  /** The load timer: both collections are reset to the mock data. */
  function FinishInitialLoad(st: Store, t0: int): Store {
    InitialStore(t0)
  }

  /** A report added before the load timer fires is gone afterwards, unless
      its id happens to be one of the seed ids. */
  lemma InitialLoadDropsEarlyReports(st: Store, draft: ReportDraft, id: string, now: int, t0: int)
    requires id !in ["1", "2", "3", "4", "5"]
    ensures id !in Ids(FinishInitialLoad(AddReport(BeginInitialLoad(st), draft, id, now), t0).reports)
  {
    SeedReportsWellFormed(t0, MockTexts);
  }
}
