/**
 * The route guard in front of the signed-in pages, and the route table that
 * places it.
 */
module ProtectedRoute {
  import opened Wire

  /** The signed-in user as the auth context holds it. */
  datatype User = User(id: int, isOnboarded: bool)

  /** What a guarded route shows. */
  datatype View = VerifyingSession | Redirect(to: string) | Children

  /**
   * The guard: wait for the session check, send a visitor to sign in, send
   * a user who has not finished onboarding to it when the route asks for
   * that, and otherwise show the page.
   */
  function Guard(loading: bool, user: Option<User>, requireOnboarded: bool): (v: View)
    ensures v == VerifyingSession <==> loading
    ensures v == Redirect("/login") <==> !loading && user.None?
    ensures v == Redirect("/onboarding") <==> !loading && user.Some? && requireOnboarded && !user.value.isOnboarded
    ensures v == Children <==> !loading && user.Some? && (!requireOnboarded || user.value.isOnboarded)
  {
    if loading then VerifyingSession
    else if user.None? then Redirect("/login")
    else if requireOnboarded && !user.value.isOnboarded then Redirect("/onboarding")
    else Children
  }

  /** The application's routes. */
  datatype Route = LandingRoute | SignupRoute | LoginRoute | OnboardingRoute | DashboardRoute | UniversitiesRoute

  function Path(r: Route): (p: string)
    ensures r == LoginRoute <==> p == "/login"
    ensures r == OnboardingRoute <==> p == "/onboarding"
  {
    match r
    case LandingRoute => "/"
    case SignupRoute => "/signup"
    case LoginRoute => "/login"
    case OnboardingRoute => "/onboarding"
    case DashboardRoute => "/dashboard"
    case UniversitiesRoute => "/universities"
  }

  /** How a route is guarded: not at all, or with or without the onboarding requirement. */
  function Protection(r: Route): Option<bool>
  {
    match r
    case LandingRoute => None
    case SignupRoute => None
    case LoginRoute => None
    case OnboardingRoute => Some(false)
    case DashboardRoute => Some(true)
    case UniversitiesRoute => Some(true)
  }

  /** What visiting a route shows in a given session state. */
  function Render(r: Route, loading: bool, user: Option<User>): (v: View)
    ensures Protection(r).None? ==> v == Children
    ensures Protection(r).Some? ==> v == Guard(loading, user, Protection(r).value)
  {
    match Protection(r)
    case None => Children
    case Some(requireOnboarded) => Guard(loading, user, requireOnboarded)
  }

  /** The dashboard and the universities page need a finished onboarding; the wizard only a session. */
  lemma OnboardingRequirement(loading: bool, user: Option<User>)
    requires !loading && user.Some?
    ensures Render(OnboardingRoute, loading, user) == Children
    ensures Render(DashboardRoute, loading, user) == Children <==> user.value.isOnboarded
    ensures Render(UniversitiesRoute, loading, user) == Children <==> user.value.isOnboarded
    ensures !user.value.isOnboarded ==> Render(DashboardRoute, loading, user) == Redirect("/onboarding")
  {
  }

  /** An onboarded user reaches every route. */
  lemma OnboardedReachesAll(user: User, r: Route)
    requires user.isOnboarded
    ensures Render(r, false, Some(user)) == Children
  {
  }

  /**
   * Every redirect lands on a route that, in the same session state, shows
   * its page: the guard never redirects twice in a row.
   */
  lemma RedirectTargetRenders(r: Route, loading: bool, user: Option<User>)
    requires Render(r, loading, user).Redirect?
    ensures exists t :: Path(t) == Render(r, loading, user).to && Render(t, loading, user) == Children
  {
    var v := Render(r, loading, user);
    if user.None? {
      assert Path(LoginRoute) == v.to && Render(LoginRoute, loading, user) == Children;
    } else {
      assert Path(OnboardingRoute) == v.to && Render(OnboardingRoute, loading, user) == Children;
    }
  }
}
