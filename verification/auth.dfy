/** The authentication context: the signed-in user, the loading flag and the
    admin flag, and the events that change them. Sign-in is a demo check
    against one fixed pair of credentials. */
module Auth {
  import opened Wrappers

  datatype User = User(uid: string, email: string, displayName: string, emailVerified: bool)

  datatype AuthState = AuthState(currentUser: Option<User>, loading: bool, isAdmin: bool)

  /** How a `login` promise settles. */
  datatype Settled = Fulfilled | Rejected

  const AdminEmail := "admin@safezone.app"
  const AdminPassword := "admin123"

  /** The one user the demo sign-in produces. */
  const MockUser := User("admin123", "admin@safezone.app", "Admin User", true)

  /** The provider as it mounts: no user, loading, not admin. */
  const Initial := AuthState(None, true, false)

  /** `login`: the demo credentials sign in the mock user as admin; any
      other pair leaves user and admin flag as they were. Loading ends
      false, and nothing in the body throws, so the promise is fulfilled. */
  function Login(st: AuthState, email: string, password: string): (r: (AuthState, Settled))
    ensures !r.0.loading && r.1 == Fulfilled
    ensures email == AdminEmail && password == AdminPassword ==>
      r.0.currentUser == Some(MockUser) && r.0.isAdmin
    ensures !(email == AdminEmail && password == AdminPassword) ==>
      r.0.currentUser == st.currentUser && r.0.isAdmin == st.isAdmin
  {
    if email == "admin@safezone.app" && password == "admin123" then
      (AuthState(Some(User("admin123", "admin@safezone.app", "Admin User", true)), false, true), Fulfilled)
    else (st.(loading := false), Fulfilled)
  }

  /** `logout`: no user, not admin, not loading. */
  function Logout(st: AuthState): (st': AuthState)
    ensures st'.currentUser.None? && !st'.isAdmin && !st'.loading
  {
    AuthState(None, false, false)
  }

  /** The one-second timer the provider starts on mount: loading ends and the
      user is cleared; the admin flag is left as it is. */
  function TimerFires(st: AuthState): (st': AuthState)
    ensures st'.currentUser.None? && !st'.loading && st'.isAdmin == st.isAdmin
  {
    st.(loading := false, currentUser := None)
  }

  /** `checkUserRole`: a user is admin exactly when its uid is the mock user's. */
  function CheckUserRole(uid: string): (b: bool)
    ensures b <==> uid == MockUser.uid
  {
    uid == "admin123"
  }

  datatype Event = LoginWith(email: string, password: string) | LogoutEvent | Timer

  function Step(st: AuthState, e: Event): AuthState {
    match e
    case LoginWith(email, password) => Login(st, email, password).0
    case LogoutEvent => Logout(st)
    case Timer => TimerFires(st)
  }

  function Run(st: AuthState, es: seq<Event>): AuthState
    decreases |es|
  {
    if |es| == 0 then st else Run(Step(st, es[0]), es[1..])
  }

  /** Whenever someone is signed in it is the mock user, the admin flag is
      set and loading has ended. */
  ghost predicate Consistent(st: AuthState) {
    st.currentUser.Some? ==> st.currentUser == Some(MockUser) && st.isAdmin && !st.loading
  }

  lemma StepConsistent(st: AuthState, e: Event)
    requires Consistent(st)
    ensures Consistent(Step(st, e))
  {
  }

  /** From mount, every sequence of sign-ins, sign-outs and the timer keeps the
      signed-in user, if any, the mock admin, with loading over. */
  lemma {:induction false} RunConsistent(st: AuthState, es: seq<Event>)
    requires Consistent(st)
    ensures Consistent(Run(st, es))
    decreases |es|
  {
    if |es| > 0 {
      StepConsistent(st, es[0]);
      RunConsistent(Step(st, es[0]), es[1..]);
    }
  }

  /** The reverse does not hold: signing in before the mount timer fires
      leaves the admin flag set with nobody signed in. */
  lemma AdminFlagOutlivesUser()
    ensures var st := Run(Initial, [LoginWith(AdminEmail, AdminPassword), Timer]);
      st.isAdmin && st.currentUser.None? && !st.loading
  {
    var es := [LoginWith(AdminEmail, AdminPassword), Timer];
    var signedIn := Step(Initial, es[0]);
    assert signedIn.isAdmin;
    assert Run(Initial, es) == Run(signedIn, [Timer]);
    assert Run(signedIn, [Timer]) == Run(TimerFires(signedIn), []);
  }

  /** A failed sign-in does not sign out whoever is signed in. */
  lemma FailedLoginKeepsSession(st: AuthState, email: string, password: string)
    requires email != AdminEmail
    ensures Login(st, email, password).0.currentUser == st.currentUser
    ensures Login(st, email, password).0.isAdmin == st.isAdmin
  {
  }
}
