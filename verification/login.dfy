/** The combined login page, with a user tab and an admin tab. */
module Login {
  import opened Wrappers
  import opened Auth
  import App

  const MissingFields := "Please enter both email and password"

  /** What a submit leaves behind: the tab's error text and where it navigates. */
  datatype Outcome = Outcome(error: string, navigateTo: Option<string>)

  /** `handleUserLogin`: any non-empty pair is accepted and sent to `/home`. */
  function HandleUserLogin(email: string, password: string): (o: Outcome)
    ensures email == "" || password == "" <==> o == Outcome(MissingFields, None)
    ensures email != "" && password != "" <==> o == Outcome("", Some("/home"))
  {
    if email == "" || password == "" then Outcome("Please enter both email and password", None)
    else Outcome("", Some("/home"))
  }

  /** `handleAdminLogin`: with both fields filled it calls `login` and then
      always navigates to `/admin`; the error text stays empty, because
      `login` never rejects. */
  function HandleAdminLogin(auth: AuthState, email: string, password: string): (r: (AuthState, Outcome))
    ensures email == "" || password == "" ==> r == (auth, Outcome(MissingFields, None))
    ensures email != "" && password != "" ==>
      r == (Auth.Login(auth, email, password).0, Outcome("", Some("/admin")))
  {
    if email == "" || password == "" then (auth, Outcome("Please enter both email and password", None))
    else
      var (auth', settled) := Auth.Login(auth, email, password);
      var error := if settled == Rejected then "Invalid admin credentials. Try admin@safezone.app / admin123" else "";
      (auth', Outcome(error, Some("/admin")))
  }

  /** A successful user sign-in lands on the not-found page, since `/home` is not a route. */
  lemma UserLoginLandsNowhere(email: string, password: string)
    requires HandleUserLogin(email, password).navigateTo.Some?
    ensures App.Resolve(HandleUserLogin(email, password).navigateTo.value).page == App.NotFound
  {
    App.HomeIsNotFound();
  }

  /** Wrong admin credentials show no error on the page and still navigate to
      `/admin`, whose guard then sends a signed-out visitor to the admin login page. */
  lemma WrongAdminCredentialsBounce(auth: AuthState, email: string, password: string)
    requires email != "" && password != "" && email != AdminEmail
    requires auth.currentUser.None?
    ensures var (auth', o) := HandleAdminLogin(auth, email, password);
      o.error == "" && o.navigateTo == Some("/admin")
      && App.Visit("/admin", auth') == App.Redirect("/admin/login")
  {
    App.DashboardNeedsAdmin(HandleAdminLogin(auth, email, password).0);
  }

  /** The demo credentials reach the dashboard. */
  lemma AdminCredentialsReachDashboard(auth: AuthState)
    ensures var (auth', o) := HandleAdminLogin(auth, AdminEmail, AdminPassword);
      o.navigateTo == Some("/admin") && App.Visit("/admin", auth') == App.Show(App.AdminDashboard)
  {
    App.DashboardNeedsAdmin(HandleAdminLogin(auth, AdminEmail, AdminPassword).0);
  }
}
