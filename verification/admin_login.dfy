/** The admin login page: its submit handler and the redirect it performs
    once a user is signed in. */
module AdminLogin {
  import opened Wrappers
  import opened Auth
  import App

  const MissingFields := "Please enter both email and password"

  /** `handleSubmit`: with both fields filled it calls `login` once with
      them; the error text is cleared and stays clear, because `login` never
      rejects. Returns the auth state, the error text, and whether `login` ran. */
  function HandleSubmit(auth: AuthState, email: string, password: string): (r: (AuthState, string, bool))
    ensures email == "" || password == "" <==> !r.2
    ensures !r.2 ==> r.0 == auth && r.1 == MissingFields
    ensures r.2 ==> r.0 == Auth.Login(auth, email, password).0 && r.1 == ""
  {
    if email == "" || password == "" then (auth, "Please enter both email and password", false)
    else
      var (auth', settled) := Auth.Login(auth, email, password);
      var error := if settled == Rejected then "Failed to log in. Please check your credentials." else "";
      (auth', error, true)
  }

  /** The page's effect: a signed-in user is sent to `/admin`. */
  function RedirectTarget(auth: AuthState): (to: Option<string>)
    ensures to.Some? <==> auth.currentUser.Some?
    ensures to.Some? ==> to.value == "/admin"
  {
    if auth.currentUser.Some? then Some("/admin") else None
  }

  /** Submitting the demo credentials signs in the admin, and the redirect
      then shows the dashboard. */
  lemma SubmitThenRedirect(auth: AuthState)
    ensures var auth' := HandleSubmit(auth, AdminEmail, AdminPassword).0;
      RedirectTarget(auth') == Some("/admin")
      && App.Visit("/admin", auth') == App.Show(App.AdminDashboard)
  {
    App.DashboardNeedsAdmin(HandleSubmit(auth, AdminEmail, AdminPassword).0);
  }

  /** Every user the redirect sends on gets past the dashboard guard: a
      signed-in user is always the admin, whatever happened since mount. */
  lemma RedirectNeverBounces(es: seq<Auth.Event>)
    requires RedirectTarget(Auth.Run(Auth.Initial, es)).Some?
    ensures App.Visit("/admin", Auth.Run(Auth.Initial, es)) == App.Show(App.AdminDashboard)
  {
    Auth.RunConsistent(Auth.Initial, es);
    App.DashboardNeedsAdmin(Auth.Run(Auth.Initial, es));
  }
}
