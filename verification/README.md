# SafeZone watch-report, modelled in Dafny

SafeZone is a community incident-reporting web app. Citizens file incident
reports and press an emergency SOS button; administrators sign in to review,
filter, map and chart the reports. All state lives in two React contexts:
- the data store, with reports, safety tips and a busy flag;
- the auth store, with the current user, a loading flag and an admin flag.

This project models that state and the pure logic of every page built on it:
- **Store** (`reports.dfy`): the data store and its operations `addReport`, `updateReportStatus`, `addSafetyTip` and the radius query, plus the mock data and the load timer that resets to it.
- **Shared report predicates** (`queries.dfy`), used by the list, map, dashboard and analytics pages:
  - the category a report is filed under;
  - the search box;
  - the category, status and emergency drop-downs;
  - the time windows;
  - the category option list.
- **Generic helpers:**
  - `forEach` grouping and counting into an object, modelled as insertion-ordered association lists (`grouping.dfy`);
  - the stable sort by count and the top five (`ranking.dfy`);
  - `Math.round(k / n * 100)` computed exactly (`percent.dfy`);
  - JavaScript string truthiness, `toLowerCase` and `includes` (`text.dfy`).
- **Pages:**
  - the admin report list (`admin_reports.dfy`);
  - the public incident list (`view_incidents.dfy`);
  - the incident map (`admin_map.dfy`);
  - the dashboard (`admin_dashboard.dfy`);
  - the analytics page (`admin_analytics.dfy`);
  - the safety-tips page (`safety_tips.dfy`).
- **Report form** (`report_form.dfy`): its events and submit guard.
- **SOS button** (`sos.dfy`): its state machine, with one record per `setInterval` it starts.
- **Auth and routing:**
  - the auth provider (`auth.dfy`);
  - the route table and `ProtectedRoute` (`routes.dfy`, module `App`);
  - the two login pages (`login.dfy`, `admin_login.dfy`).
- **Incident card** (`incident_card.dfy`): colours and labels.

Every operation is a pure function on immutable data. Identifiers (`uuidv4()`), the clock (`Date.now()`), the great-circle distance and number formatting are parameters. Timers and geolocation callbacks become explicit events.

Behaviour of the program that the proofs bring out:
- **Category drop-down.** The list is `'all'` followed by the distinct category names. If a report's category is literally `'all'`, the option appears twice (`Queries.CategoryOptionsDuplicateAll`).
- **Analytics 'year' range.** It is twelve 30-day months, i.e. 360 days.
- **Combined login page (`Login.tsx`).**
  - It is not routed at all.
  - Its user tab navigates to `/home`, which is not a route either.
- **`login` never rejects.** So the error messages of both login pages are unreachable. Wrong admin credentials on the combined page still navigate to `/admin`, where the guard sends the visitor to `/admin/login`.
- **Auth mount timer.** It clears any user who signed in during the first second. It leaves the admin flag set.
- **Data load timer.** It drops any report filed during the first second.
- **Report form address fallback.** The fallback address `'Location manually entered'` is unreachable. Without a detected position the guard already demands a typed location.
- **Report form media.** No event ever attaches a media file, so `mediaUrls` is never sent.
- **Uncategorised reports.** The incident card titles them 'General Report', but the list pages group them as 'Uncategorized'.

## Model

| member | source | states |
|---|---|---|
| Reports.ParseStatus | src/context/DataContext.tsx:16 | a string parses only to the status it names, and each of the three status strings parses |
| Reports.StatusNameRoundTrip | src/context/DataContext.tsx:16 | status strings are distinct and read back as the status they name |
| Reports.AddReport | src/context/DataContext.tsx:164-197 | the new report is prepended with the caller's fields, the given id and time and status new; the older reports and the tips are unchanged; the store is idle afterwards |
| Reports.AddReportKeepsIdsUnique | src/context/DataContext.tsx:168-176 | with a fresh id, report ids stay pairwise distinct |
| Reports.SetStatus | src/context/DataContext.tsx:205-209 | every report with the id takes the new status and every other report is kept as it is, position by position |
| Reports.UpdateReportStatus | src/context/DataContext.tsx:200-229 | only the reports change, as SetStatus says; tips untouched; idle afterwards |
| Reports.SetStatusAbsentId | src/context/DataContext.tsx:205-209 | an id not in the store changes nothing and is no error |
| Reports.SetStatusIdempotent | src/context/DataContext.tsx:205-209 | applying the same update twice equals applying it once |
| Reports.SetStatusLastWins | src/context/DataContext.tsx:205-209 | of two updates on one id the last one wins |
| Reports.SetStatusKeepsRest | src/context/DataContext.tsx:205-209 | the update keeps the id order and every caller-supplied field and timestamp |
| Reports.AddSafetyTip | src/context/DataContext.tsx:231-262 | the new tip, with the given id and time, is prepended; reports unchanged; idle afterwards |
| SafetyTips.NewTipLeadsItsGroup | src/context/DataContext.tsx:235-242 | a published tip heads the group of its category on the tips page, followed by that category's older tips |
| Reports.ReportsWithin | src/context/DataContext.tsx:264-296 | the reports at distance at most the radius, all of them, in store order |
| Reports.ReportsWithinMonotone | src/context/DataContext.tsx:287-295 | a larger radius finds a superset, in the same order |
| Reports.SeedReports | src/context/DataContext.tsx:51-117 | five mock reports |
| Reports.SeedTips | src/context/DataContext.tsx:119-141 | three mock tips with ids 1 to 3, each in its own category, all published before load |
| Reports.SeedReportsWellFormed | src/context/DataContext.tsx:51-117 | the mock reports carry ids 1 to 5, pairwise distinct, all timestamped before load |
| Reports.BeginInitialLoad | src/context/DataContext.tsx:150-151 | the mount effect turns the store busy without touching its contents |
| Reports.InitialLoadDropsEarlyReports | src/context/DataContext.tsx:150-162 | a report filed before the load timer fires is gone afterwards, unless its id is a mock id |
| Queries.CategoryKey | src/pages/AdminReports.tsx:24 | the category when present and non-empty, otherwise 'Uncategorized'; never empty |
| Queries.SearchMeaning | src/pages/AdminReports.tsx:29-32 | the search matches exactly when the term is empty or its lower-cased form is a substring of the lower-cased description, or category or address when present |
| Queries.SearchIgnoresCase | src/pages/AdminReports.tsx:29-32 | upper-casing the term does not change what it matches |
| Queries.SearchSkipsFallbackCategory | src/pages/AdminReports.tsx:29-32 | a report without category is found only through description or address, never through 'Uncategorized' |
| Queries.CategoryFilterIsKey | src/pages/AdminReports.tsx:35-37 | any category filter other than 'all' or empty selects exactly the reports whose category key it is |
| Queries.StatusFilterIsStatus | src/pages/AdminReports.tsx:40 | filtering by a status name selects exactly the reports in that status |
| Queries.EmergencyFilterValues | src/pages/AdminReports.tsx:43-45 | 'all' keeps all, 'emergency' and 'non-emergency' split by the flag, any other value keeps nothing |
| Queries.InWindow | src/pages/AdminDashboard.tsx:22-31 | the reports strictly younger than the window, all of them, in store order; no window keeps the list |
| Queries.WindowsNest | src/pages/AdminDashboard.tsx:22-31 | a longer window keeps a superset, in the same order |
| Queries.WindowBoundIsStrict | src/pages/AdminDashboard.tsx:24 | a report exactly one window old is outside it |
| Queries.CategoryOptions | src/pages/AdminReports.tsx:24 | 'all' first, then each category key of the reports exactly once, in order of first appearance, and nothing else |
| Queries.CategoryOptionsDuplicateAll | src/pages/AdminReports.tsx:24 | the options are duplicate-free exactly when no report's category is 'all' |
| Queries.WithStatus | src/pages/AdminDashboard.tsx:36-38 | the reports in the status, all of them, in store order |
| Queries.StatusesPartition | src/pages/AdminDashboard.tsx:36-41 | the three status lists' sizes add up to the total |
| Queries.Emergencies | src/pages/AdminDashboard.tsx:35 | the emergency reports, all of them, in store order |
| Seqs.FilterCounts | src/pages/AdminReports.tsx:27-48 | `filter` keeps every occurrence of a satisfying element and none of any other |
| Grouping.GroupBy | src/pages/SafetyTips.tsx:11-17 | one group per key in first-appearance order, each holding exactly the elements with that key in order, sizes adding up to the input length |
| Grouping.CountBy | src/pages/AdminDashboard.tsx:45-49 | one counter per key in first-appearance order, each the number of elements with that key, adding up to the input length |
| Grouping.ExactlyOneGroup | src/pages/SafetyTips.tsx:11-17 | every element lies in the group of its own key and in no other |
| Grouping.KeyPresent | src/pages/SafetyTips.tsx:11-17 | a key has a group exactly when some element has it |
| Grouping.GroupsNonEmpty | src/pages/AdminMap.tsx:69-76 | no group is empty |
| Grouping.CountsAreGroupSizes | src/pages/AdminMap.tsx:210-214 | the counters are exactly the group sizes, key by key |
| Ranking.SortByCount | src/pages/AdminDashboard.tsx:52-53 | the result is a permutation of the entries with counts non-increasing |
| Ranking.SortStable | src/pages/AdminDashboard.tsx:52-53 | entries with equal counts keep their input order |
| Ranking.TopFive | src/pages/AdminDashboard.tsx:52-54 | min(5, n) entries, highest count first, a sub-multiset of the input; every occurrence left out counts no more than any entry kept |
| Ranking.LeftOutRanksLower | src/pages/AdminDashboard.tsx:52-54 | an entry not shown at all counts no more than any entry shown |
| Ranking.TopFiveDominates | src/pages/AdminDashboard.tsx:52-54 | no entry left out has a higher count than any entry kept |
| Percent.RoundPercent | src/pages/AdminDashboard.tsx:42 | 0 for an empty set, else 100k/n rounded half up; at most 100 when k is at most n; 100 for all, 0 for none |
| Percent.RoundPercentIsNearest | src/pages/AdminDashboard.tsx:42 | the rounding is unique: RoundPercent is the one integer within half a unit of 100k/n, halves going up |
| Text.OrElse | src/pages/AdminReports.tsx:24 | `s \|\| fallback`: the string when present and non-empty, otherwise the fallback |
| Text.Lower | src/pages/AdminReports.tsx:30 | same length, each ASCII capital lower-cased and every other character kept |
| Text.Contains | src/pages/AdminReports.tsx:30 | true exactly when the needle occurs as a contiguous substring |
| Text.LowerOfUpper | src/pages/AdminReports.tsx:30 | lower-casing undoes upper-casing |
| Text.Capitalize | src/components/IncidentCard.tsx:36 | first character upper-cased, the rest kept |
| AdminReports.FilteredReports | src/pages/AdminReports.tsx:27-48 | the reports passing all four filters, all of them, in store order |
| AdminReports.DefaultsKeepAll | src/pages/AdminReports.tsx:17-48 | with the initial filter values every report is listed |
| AdminReports.StatusFilterSelectsStatus | src/pages/AdminReports.tsx:40-47 | a report passing the other filters is listed exactly when it has the chosen status |
| AdminReports.SyncSelected | src/pages/AdminReports.tsx:52-54 | the open report takes the new status exactly when its id is the updated one |
| AdminReports.HandleStatusChange | src/pages/AdminReports.tsx:50-55 | the store update followed by the open-report update |
| AdminReports.SelectionStaysInStore | src/pages/AdminReports.tsx:50-55 | an open report that is in the store is still in the store after the change |
| ViewIncidents.FilteredReports | src/pages/ViewIncidents.tsx:23-39 | the reports passing search, category and status, all of them, in store order |
| ViewIncidents.DefaultsKeepAll | src/pages/ViewIncidents.tsx:14-39 | with the initial filter values every report is listed |
| ViewIncidents.EmergencyIgnored | src/pages/ViewIncidents.tsx:23-39 | the emergency flag never affects the public list |
| ViewIncidents.SameAsAdminList | src/pages/ViewIncidents.tsx:23-39 | the public list is the admin list with the emergency filter at 'all' |
| AdminMap.Window | src/pages/AdminMap.tsx:35-50 | day, week and month windows; 'all' and unknown ranges keep everything |
| AdminMap.FilteredReports | src/pages/AdminMap.tsx:26-64 | the reports in the time range, of the chosen category and of a kind shown, all of them, in store order |
| AdminMap.StagesAreConjunction | src/pages/AdminMap.tsx:26-64 | the three successive filter stages equal one filter by their conjunction, in store order |
| AdminMap.TimeStage | src/pages/AdminMap.tsx:35-50 | the time stage is a filter by the range's window |
| AdminMap.CategoryStage | src/pages/AdminMap.tsx:53-58 | time then category stage is one filter by both |
| AdminMap.NoKindShown | src/pages/AdminMap.tsx:61-63 | both toggles off show nothing |
| AdminMap.BothKindsShown | src/pages/AdminMap.tsx:61-63 | both toggles on leave only the time and category stages |
| AdminMap.ReportsByCategory | src/pages/AdminMap.tsx:69-76 | one group per category key of the shown reports, each exactly that category's reports in order |
| AdminMap.GroupsPartitionShown | src/pages/AdminMap.tsx:69-76 | every shown report is in its own category's group only; groups are non-empty and in store order |
| AdminMap.Preview | src/pages/AdminMap.tsx:217-232 | the first three reports of a group, and a "more" count exactly when there are more, the two adding up to the group size |
| AdminDashboard.Window | src/pages/AdminDashboard.tsx:16-32 | today, week and month windows; anything else keeps everything |
| AdminDashboard.FilteredReports | src/pages/AdminDashboard.tsx:16-32 | the reports younger than the frame's window, all of them, in store order |
| AdminDashboard.ResolvedPercentage | src/pages/AdminDashboard.tsx:41-42 | the resolved share rounded half up, 0 for an empty frame, 100 when all are resolved |
| AdminDashboard.CategoryCounts | src/pages/AdminDashboard.tsx:45-49 | one counter per category key in first-appearance order, each that category's report count, totalling the frame |
| AdminDashboard.SortedCategories | src/pages/AdminDashboard.tsx:52-54 | min(5, number of categories) counters taken from the category counts, highest first; no category left out has a higher count than one shown |
| AdminDashboard.Recent | src/pages/AdminDashboard.tsx:161 | the first three reports of the frame |
| AdminDashboard.StatusListsPartition | src/pages/AdminDashboard.tsx:36-41 | the three status lists split the frame, each report in the list of its status |
| AdminDashboard.CategoriesCountEachReport | src/pages/AdminDashboard.tsx:45-49 | every report of the frame is counted under its category |
| AdminDashboard.OneDayOldNeverToday | src/pages/AdminDashboard.tsx:23-24 | a report filed exactly one day before load is never in 'today' |
| AdminDashboard.SeedReportThreeIsOneDayOld | src/context/DataContext.tsx:78-90 | mock report 3 is such a report |
| AdminAnalytics.Window | src/pages/AdminAnalytics.tsx:47-62 | week, month and a 360-day year; anything else keeps everything |
| AdminAnalytics.YearIsThreeHundredSixtyDays | src/pages/AdminAnalytics.tsx:54-55 | a report 360 to 365 days old is outside 'year' |
| AdminAnalytics.CategoryData | src/pages/AdminAnalytics.tsx:64-69 | one counter per category key in first-appearance order, each that category's count, totalling the range |
| AdminAnalytics.StatusData | src/pages/AdminAnalytics.tsx:71-79 | the three counters in fixed order, each the number of reports in its status |
| AdminAnalytics.StatusBump | src/pages/AdminAnalytics.tsx:77-79 | one report bumps exactly the counter of its status |
| AdminAnalytics.StatusDataSums | src/pages/AdminAnalytics.tsx:71-79 | the status keys are always the three statuses and the counters total the range |
| AdminAnalytics.EmergencyPercentage | src/pages/AdminAnalytics.tsx:100-104 | the emergency share rounded half up, 0 for an empty range |
| AdminAnalytics.ResolutionRate | src/pages/AdminAnalytics.tsx:106-110 | the resolved share rounded half up, 0 for an empty range |
| AdminAnalytics.GetAnalyticsData | src/pages/AdminAnalytics.tsx:38-120 | over the reports in the range: the per-category and per-status counts as CategoryData and StatusData state them, both totalling the range, and the emergency and resolved shares rounded half up, 0 for an empty range |
| AdminAnalytics.FilteredReports | src/pages/AdminAnalytics.tsx:47-62 | the reports younger than the range's window, all of them, in store order |
| AdminAnalytics.TopCategories | src/pages/AdminAnalytics.tsx:230-232 | min(5, number of categories) counters taken from `categoryData`, highest first; none left out outranks one shown |
| SafetyTips.TipsByCategory | src/pages/SafetyTips.tsx:11-17 | one group per category in first-appearance order, each exactly that category's tips in order, holding every tip |
| SafetyTips.EachTipInOwnGroup | src/pages/SafetyTips.tsx:11-17 | every tip is in its own category's group only |
| SafetyTips.GroupsAreCategories | src/pages/SafetyTips.tsx:11-17 | a group exists exactly for each category some tip has; no group is empty |
| ReportForm.Step | src/components/ReportForm.tsx:21-84 | no form event, the manual-entry radio included, attaches a media file |
| ReportForm.MediaNeverAttached | src/components/ReportForm.tsx:28 | from a form without media, no sequence of events attaches one |
| ReportForm.Submit | src/components/ReportForm.tsx:86-126 | description required first, then a position or typed location; a submitted draft carries the description, flag, position or default coordinates with the typed address, the category only when non-empty, media URLs only with media |
| ReportForm.ManualAfterDetection | src/components/ReportForm.tsx:211-213 | after a detected position, choosing manual entry and typing an address files the report at the default coordinates with that address |
| ReportForm.NoMediaUrlsEverSent | src/components/ReportForm.tsx:121 | a form filled from blank never sends media URLs |
| ReportForm.SubmitToStore | src/components/ReportForm.tsx:115-125 | a rejected form leaves the store alone; an accepted one adds exactly its draft as a new report |
| EmergencySOS.Alert | src/components/EmergencySOSButton.tsx:66-71 | an emergency report of category 'Emergency SOS' at the given point, without address |
| EmergencySOS.SendAlert | src/components/EmergencySOSButton.tsx:64-89 | one more alert for the given point and the button active; countdown, location and intervals untouched |
| EmergencySOS.Activate | src/components/EmergencySOSButton.tsx:19-62 | no effect while active; without a position the fallback alert is sent at once and nothing else changes; with one a three-second countdown and a new interval start and nothing is sent |
| EmergencySOS.Tick | src/components/EmergencySOSButton.tsx:31-40 | a cleared interval does nothing; otherwise with no countdown left it sends its alert and clears itself, else the countdown drops by one |
| EmergencySOS.Cancel | src/components/EmergencySOSButton.tsx:91-99 | inactive and no countdown; intervals and alerts untouched |
| EmergencySOS.AlertOnThirdTick | src/components/EmergencySOSButton.tsx:30-40 | after a located press the alert goes out on the third tick and not before |
| EmergencySOS.CancelDoesNotStopAlert | src/components/EmergencySOSButton.tsx:91-99 | a cancel during the countdown does not stop the alert |
| EmergencySOS.SecondPressDuringCountdown | src/components/EmergencySOSButton.tsx:19-40 | a second press during the countdown starts a second interval and two alerts are sent |
| EmergencySOS.FallbackAlert | src/components/EmergencySOSButton.tsx:42-61 | without a position the alert goes out at once from 40.7128, -74.0060 |
| EmergencySOS.AlertReachesStore | src/components/EmergencySOSButton.tsx:64-73 | the alert becomes a new emergency report of category 'Emergency SOS' |
| EmergencySOS.QuietStaysQuiet | src/components/EmergencySOSButton.tsx:31-40 | with no interval running, no sequence of ticks changes anything |
| EmergencySOS.CancelAndClear | src/components/EmergencySOSButton.tsx:121-136 | the cancel the countdown screen offers: inactive, no countdown, no interval running, alerts untouched |
| EmergencySOS.CancelAndClearStopsAlert | src/components/EmergencySOSButton.tsx:121-136 | with that cancel, no tick after it sends an alert |
| EmergencySOS.ActivateOnce | src/components/EmergencySOSButton.tsx:19-20 | a press while active or counting down is ignored; otherwise it is a press |
| EmergencySOS.CalmActivateOnce | src/components/EmergencySOSButton.tsx:19-40 | at most one interval runs and only during a countdown, from mount on and across corrected presses |
| EmergencySOS.CalmTick | src/components/EmergencySOSButton.tsx:31-40 | ticks keep at most one interval running, only during a countdown |
| EmergencySOS.CalmCancel | src/components/EmergencySOSButton.tsx:91-99 | the cancel as written breaks that invariant exactly when an interval is running; the corrected cancel keeps it |
| EmergencySOS.SecondPressIgnored | src/components/EmergencySOSButton.tsx:160-166 | with the corrected press a second press changes nothing and one alert is sent |
| Auth.Login | src/context/AuthContext.tsx:68-108 | demo credentials sign in the mock admin; anything else keeps user and flag; loading ends; the promise never rejects |
| Auth.Logout | src/context/AuthContext.tsx:110-135 | no user, no admin flag, not loading |
| Auth.TimerFires | src/context/AuthContext.tsx:42-46 | loading ends and the user is cleared; the admin flag is kept |
| Auth.CheckUserRole | src/context/AuthContext.tsx:138-141 | admin exactly for the mock user's uid |
| Auth.StepConsistent | src/context/AuthContext.tsx:68-135 | sign-in, sign-out and the timer keep "a signed-in user is the mock admin, not loading" |
| Auth.RunConsistent | src/context/AuthContext.tsx:25-135 | the same holds after any sequence of those events |
| Auth.AdminFlagOutlivesUser | src/context/AuthContext.tsx:42-46 | signing in before the mount timer leaves the admin flag with nobody signed in |
| Auth.FailedLoginKeepsSession | src/context/AuthContext.tsx:86-92 | failed credentials keep whoever is signed in |
| App.Find | src/App.tsx:50-82 | the first route with the path, or none exactly when no route has it |
| App.Resolve | src/App.tsx:50-82 | the matching route, or the catch-all exactly when the path is unlisted |
| App.RoutedPages | src/App.tsx:50-82 | no listed route leads to the not-found or the combined login page |
| App.Protect | src/App.tsx:26-40 | loading screen exactly while auth loads; the page exactly for a signed-in admin after loading; any redirect goes to /admin/login |
| App.Visit | src/App.tsx:50-82 | public routes show their page, guarded ones go through the guard |
| App.ResolveDashboard | src/App.tsx:60-64 | /admin is the guarded dashboard |
| App.ResolveReports | src/App.tsx:65-69 | /admin/reports is the guarded report list |
| App.ResolveMap | src/App.tsx:70-74 | /admin/map is the guarded map |
| App.ResolveAnalytics | src/App.tsx:75-79 | /admin/analytics is the guarded analytics page |
| App.ResolveAdminLogin | src/App.tsx:57 | /admin/login is the unguarded admin login page |
| App.DashboardNeedsAdmin | src/App.tsx:26-40 | the dashboard shows exactly for a signed-in admin after loading; others are sent to /admin/login |
| App.LoginPageUnrouted | src/App.tsx:50-82 | no path reaches the combined login page |
| App.HomeIsNotFound | src/App.tsx:50-82 | /home is not a route |
| Login.HandleUserLogin | src/pages/Login.tsx:23-43 | an empty field gives the error; any filled pair goes to /home |
| Login.HandleAdminLogin | src/pages/Login.tsx:45-64 | an empty field gives the error; a filled pair signs in and always goes to /admin with no error |
| Login.UserLoginLandsNowhere | src/pages/Login.tsx:37 | a successful user sign-in lands on the not-found page |
| Login.WrongAdminCredentialsBounce | src/pages/Login.tsx:56-61 | wrong admin credentials show no error and end at /admin/login via the guard |
| Login.AdminCredentialsReachDashboard | src/pages/Login.tsx:56-58 | the demo credentials reach the dashboard |
| AdminLogin.HandleSubmit | src/pages/AdminLogin.tsx:25-41 | the error and an untouched session exactly when a field is empty; otherwise the session a sign-in leaves and no error |
| AdminLogin.RedirectTarget | src/pages/AdminLogin.tsx:19-23 | redirect to /admin exactly when someone is signed in |
| AdminLogin.SubmitThenRedirect | src/pages/AdminLogin.tsx:19-41 | the demo credentials are redirected to a visible dashboard |
| AdminLogin.RedirectNeverBounces | src/pages/AdminLogin.tsx:19-23 | whatever happened since mount, a redirected user passes the dashboard guard |
| IncidentCard.StatusColor | src/components/IncidentCard.tsx:14-25 | blue, yellow, green exactly for new, reviewing, resolved; grey exactly for anything else |
| IncidentCard.StatusColorsDistinct | src/components/IncidentCard.tsx:14-25 | statuses get distinct colours, never the grey default |
| IncidentCard.Title | src/components/IncidentCard.tsx:33 | the category when non-empty, else 'General Report' |
| IncidentCard.TitleVersusCategoryKey | src/components/IncidentCard.tsx:33 | the title equals the list category key except for uncategorised reports |
| IncidentCard.StatusLabel | src/components/IncidentCard.tsx:36 | the status name with its first letter upper-cased |
| IncidentCard.StatusLabels | src/components/IncidentCard.tsx:36 | the labels are New, Reviewing and Resolved |
| IncidentCard.CardClass | src/components/IncidentCard.tsx:28 | the red double border exactly for emergencies |
| IncidentCard.LocationLine | src/components/IncidentCard.tsx:49 | the address when non-empty, else both coordinates formatted |

`getStatusColor` in `src/pages/AdminReports.tsx` (lines 57-68) is the same mapping as the incident card's, so `IncidentCard.StatusColor` models both.

## Left out

- Haversine distance (`getDistanceFromLatLonInKm`): floating-point trigonometry. `Reports.ReportsWithin` takes the distance as a function parameter.
- The analytics daily trend (`dailyData`): it keys counts by locale-formatted dates from `toLocaleDateString`, which is not modelled.
- Relative times (`formatDistanceToNow`) and `toFixed`: formatting libraries. `IncidentCard.LocationLine` takes the formatter as a parameter. The map side list's `toFixed(3)` coordinates and 50-character description cut are display only.
- Real time: `setTimeout` and `setInterval` delays are not modelled. Each timer firing is an explicit event (`Auth.TimerFires`, `Reports.FinishInitialLoad`, `EmergencySOS.Tick`), so any interleaving of events is covered but durations are not.
- Toast notifications, console logging, the `try`/`catch` failure branches of the store operations: none of the modelled bodies can throw, so those branches are dead.
- `uuidv4()` and `Date.now()`: parameters of the operations that use them. Uniqueness of ids is a hypothesis of `Reports.AddReportKeepsIdsUnique`.
- Percent.RoundPercent: computes `Math.round(k / n * 100)` exactly on rationals. Floating-point error in `k / n * 100` at an exact half is not modelled.
- Text.Lower: ASCII case mapping only, because Unicode case mapping tables are out of scope.
- Grouping.GroupBy: keys in insertion order. JavaScript objects list integer-like keys (a category named "7") first in numeric order, and `Object.entries` would reflect that; that ordering rule is not modelled.
- React-router matching details (case-insensitivity, trailing slashes, `replace` history): `App.Resolve` matches paths exactly.
- Asynchronous interleaving inside a handler: each handler runs atomically. The `loading` flags set at the start of `addReport`, `login` and `logout` are therefore not observable mid-call.
- React StrictMode re-running state updaters: not modelled. Under it, the SOS tick updater, which calls `sendEmergencyAlert`, could run twice.
- The combined login page's local `loading` flag and the report form's `loadingLocation` flag: busy indicators only.
- A press of the SOS button and the answer to its position request are one step (`EmergencySOS.Activate`). Two presses whose answers both arrive later are modelled as the two steps those answers produce.
- The report form's geolocation request and the SOS button's: their outcome is an input (`ReportForm.LocationFound`/`LocationFailed`, `EmergencySOS.Geo`).
- Reports.SeedReports: its contract states the length only. Ids and timestamps are stated by `Reports.SeedReportsWellFormed`, and the free text lives in `Reports.MockTexts` so that no lemma depends on it.
- Reports.SeedTips: the tips' titles and contents live in `Reports.MockTipTexts` and are not stated in its contract.
- Reports.FinishInitialLoad and Reports.InitialStore carry no contract of their own. They are the mock data by definition, and `Reports.InitialLoadDropsEarlyReports` states their effect.
- Rendering-only components and pages (Home, the navbars, `LocationMap`, `SafetyTipCard`, the SOS page wrapper), the service worker and the Firebase configuration stubs: they hold no logic of the core.

## Findings

| source | as written | input that shows it | evidently intended | confidence | as-written member | corrected member |
|---|---|---|---|---|---|---|
| src/components/EmergencySOSButton.tsx:91-99 | `cancelSOS` resets `active` and `countdown` but never clears the running interval; its next tick sees a null countdown and sends the alert | full-screen button, position available: press SOS, press Cancel on the "Sending Alert in 3..." screen; one second later the alert is filed | Cancel during the countdown stops the alert, as the screen's "Press cancel if this was an accident" promises | high, not executed | EmergencySOS.CancelDoesNotStopAlert | EmergencySOS.CancelAndClear |
| src/components/EmergencySOSButton.tsx:19-20 | the early return tests only `active`, which is set only when the alert is sent; a press while the position request is pending, or on the compact button during the countdown, still calls `activateSOS` | full-screen button as the SOS page renders it: press a second time before the browser answers the position request, then allow the position; both callbacks start an interval on the shared countdown and two alerts are filed (the compact button, which stays visible during the countdown, is not rendered by any page) | a press while an alert is pending is ignored | medium, not executed | EmergencySOS.SecondPressDuringCountdown | EmergencySOS.ActivateOnce |
