/** The application's route table and the guard on its admin routes. */
module App {
  import opened Wrappers
  import opened Auth

  datatype Page =
    | Home | ReportIncident | ViewIncidents | EmergencySOS | SafetyTips
    | AdminLogin | AdminDashboard | AdminReports | AdminMap | AdminAnalytics
    | Login | NotFound

  /** One `<Route>`: its path, its page, and whether it is wrapped in `ProtectedRoute`. */
  datatype Route = Route(path: string, page: Page, guarded: bool)

  /** The routes in declaration order; the catch-all is `Resolve`'s fallback. */
  const Routes: seq<Route> := [
    Route("/", Home, false),
    Route("/report", ReportIncident, false),
    Route("/incidents", ViewIncidents, false),
    Route("/emergency", EmergencySOS, false),
    Route("/safety-tips", SafetyTips, false),
    Route("/admin/login", AdminLogin, false),
    Route("/admin", AdminDashboard, true),
    Route("/admin/reports", AdminReports, true),
    Route("/admin/map", AdminMap, true),
    Route("/admin/analytics", AdminAnalytics, true)
  ]

  /** The position of the first route of `table` with path `path`. */
  function Find(table: seq<Route>, path: string): (r: Option<nat>)
    ensures r.None? <==> forall i :: 0 <= i < |table| ==> table[i].path != path
    ensures r.Some? ==> r.value < |table| && table[r.value].path == path
    ensures r.Some? ==> forall j :: 0 <= j < r.value ==> table[j].path != path
    decreases |table|
  {
    if |table| == 0 then None
    else if table[0].path == path then Some(0)
    else match Find(table[1..], path)
      case None => None
      case Some(i) => Some(i + 1)
  }

  /** The route a path matches, or the catch-all `*` route for anything unlisted. */
  function Resolve(path: string): (r: Route)
    ensures r.path == path
    ensures r.page == NotFound <==> forall i :: 0 <= i < |Routes| ==> Routes[i].path != path
  {
    match Find(Routes, path)
    case Some(i) =>
      RoutedPages(i);
      Routes[i]
    case None => Route(path, NotFound, false)
  }

  /** Every listed route has a real page: neither the catch-all's nor the combined login page. */
  lemma RoutedPages(i: nat)
    requires i < |Routes|
    ensures Routes[i].page != NotFound && Routes[i].page != Login
  {
  }

  /** What a route puts on screen. */
  datatype Screen = Loading | Redirect(to: string) | Show(page: Page)

  /** `ProtectedRoute`: a loading screen while the auth state loads, then the
      admin login page unless a user is signed in with the admin flag set. */
  function Protect(auth: AuthState, page: Page): (s: Screen)
    ensures auth.loading <==> s == Loading
    ensures s == Show(page) <==> !auth.loading && auth.currentUser.Some? && auth.isAdmin
    ensures s.Redirect? ==> s.to == "/admin/login"
  {
    if auth.loading then Loading
    else if auth.currentUser.None? || !auth.isAdmin then Redirect("/admin/login")
    else Show(page)
  }

  /** What visiting `path` shows. */
  function Visit(path: string, auth: AuthState): (s: Screen)
    ensures !Resolve(path).guarded ==> s == Show(Resolve(path).page)
    ensures Resolve(path).guarded ==> s == Protect(auth, Resolve(path).page)
  {
    var route := Resolve(path);
    if route.guarded then Protect(auth, route.page) else Show(route.page)
  }

  /** A path listed in the table resolves to its first entry. */
  lemma {:induction false} FindFirst(table: seq<Route>, i: nat, path: string)
    requires i < |table| && table[i].path == path
    requires forall j :: 0 <= j < i ==> |table[j].path| != |path| || table[j].path != path
    ensures Find(table, path) == Some(i)
    decreases i
  {
    if i > 0 {
      FindFirst(table[1..], i - 1, path);
    }
  }

  lemma ResolveDashboard()
    ensures Resolve("/admin") == Route("/admin", AdminDashboard, true)
  {
    FindFirst(Routes, 6, "/admin");
  }

  lemma ResolveReports()
    ensures Resolve("/admin/reports") == Route("/admin/reports", AdminReports, true)
  {
    FindFirst(Routes, 7, "/admin/reports");
  }

  lemma ResolveMap()
    ensures Resolve("/admin/map") == Route("/admin/map", AdminMap, true)
  {
    assert "/admin/map"[1] != "/incidents"[1] && "/admin/map"[1] != "/emergency"[1];
    FindFirst(Routes, 8, "/admin/map");
  }

  lemma ResolveAnalytics()
    ensures Resolve("/admin/analytics") == Route("/admin/analytics", AdminAnalytics, true)
  {
    FindFirst(Routes, 9, "/admin/analytics");
  }

  lemma ResolveAdminLogin()
    ensures Resolve("/admin/login") == Route("/admin/login", AdminLogin, false)
  {
    assert "/admin/login"[1] != "/safety-tips"[1];
    FindFirst(Routes, 5, "/admin/login");
  }

  /** The dashboard is shown exactly to a signed-in admin once auth has
      loaded; everyone else waits or is sent to the admin login page. */
  lemma DashboardNeedsAdmin(auth: AuthState)
    ensures Visit("/admin", auth) == Show(AdminDashboard) <==>
      !auth.loading && auth.currentUser.Some? && auth.isAdmin
    ensures !auth.loading && !(auth.currentUser.Some? && auth.isAdmin) ==>
      Visit("/admin", auth) == Redirect("/admin/login")
  {
    ResolveDashboard();
  }

  /** No path leads to the combined login page. */
  lemma LoginPageUnrouted(path: string)
    ensures Resolve(path).page != Login
  {
    if Find(Routes, path).Some? {
      RoutedPages(Find(Routes, path).value);
    }
  }

  /** `/home`, where a user sign-in navigates, is not a route. */
  lemma HomeIsNotFound()
    ensures Resolve("/home").page == NotFound
  {
    assert forall i :: 0 <= i < |Routes| ==> |Routes[i].path| != 5;
  }
}
