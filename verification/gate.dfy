/** The route table of the application root: which paths exist, and for
    each one whether the current session renders it or redirects. */
module Gate {
  import opened Common
  import opened Users
  import opened Session

  /** The screens behind `ProtectedRoute`. */
  datatype Area = Dashboard | Games | Library | Doctors | Community
                | MyJourney | DailyGoals | Music | Support

  datatype Route = Landing | AuthRoute | AssessmentRoute | Feature(area: Area) | Unrouted

  /** `p` without its trailing slashes. */
  function StripSlashes(p: string): (r: string)
    ensures |r| <= |p| && r == p[..|r|]
    ensures r == [] || r[|r| - 1] != '/'
    ensures forall i :: |r| <= i < |p| ==> p[i] == '/'
  {
    if p == [] || p[|p| - 1] != '/' then p else StripSlashes(p[..|p| - 1])
  }

  /** The router compares paths ignoring case and trailing slashes, so
      `/Games/` is `/games`; nothing but slashes is the root. */
  function Canonical(path: string): string {
    var p := StripSlashes(ToLower(path));
    if p == "" then "/" else p
  }

  /** The route table: the route declared for a canonical path. Anything
      else, including the `/shopping` and `/food` links on the dashboard,
      matches no route. */
  const DeclaredPaths: set<string> :=
    {"/", "/auth", "/assessment", "/dashboard", "/games", "/library", "/doctors",
     "/community", "/my-journey", "/daily-goals", "/music", "/support"}

  function Declared(c: string): (r: Route)
    ensures r == AuthRoute <==> c == "/auth"
    ensures r == AssessmentRoute <==> c == "/assessment"
    ensures r == Unrouted <==> c !in DeclaredPaths
  {
    if c == "/" then Landing
    else if c == "/auth" then AuthRoute
    else if c == "/assessment" then AssessmentRoute
    else if c == "/dashboard" then Feature(Dashboard)
    else if c == "/games" then Feature(Games)
    else if c == "/library" then Feature(Library)
    else if c == "/doctors" then Feature(Doctors)
    else if c == "/community" then Feature(Community)
    else if c == "/my-journey" then Feature(MyJourney)
    else if c == "/daily-goals" then Feature(DailyGoals)
    else if c == "/music" then Feature(Music)
    else if c == "/support" then Feature(Support)
    else Unrouted
  }

  /** The route a location's path selects. */
  function RouteOf(path: string): (r: Route)
    ensures r == Landing <==> Canonical(path) == "/"
    ensures r == AuthRoute <==> Canonical(path) == "/auth"
    ensures r == AssessmentRoute <==> Canonical(path) == "/assessment"
    ensures r == Unrouted <==> Canonical(path) !in DeclaredPaths
  {
    Declared(Canonical(path))
  }

  /** The route does not depend on the case of the path nor on trailing
      slashes. */
  lemma RouteIgnoresCaseAndSlash(path: string)
    ensures RouteOf(ToLower(path)) == RouteOf(path)
    ensures RouteOf(path + "/") == RouteOf(path)
  {
    CanonicalIgnoresCaseAndSlash(path);
  }

  lemma CanonicalIgnoresCaseAndSlash(path: string)
    ensures Canonical(ToLower(path)) == Canonical(path)
    ensures Canonical(path + "/") == Canonical(path)
  {
    ToLowerIdempotent(path);
    ToLowerAppend(path, "/");
    StripTrailingSlash(ToLower(path));
  }

  lemma StripTrailingSlash(p: string)
    ensures StripSlashes(p + "/") == StripSlashes(p)
  {
    var l := p + "/";
    assert l[..|l| - 1] == p;
  }

  /** A lower-case path without a trailing slash is already canonical. */
  lemma CanonicalPath(p: string)
    requires p != "" && p[|p| - 1] != '/'
    requires forall i :: 0 <= i < |p| ==> !('A' <= p[i] <= 'Z')
    ensures Canonical(p) == p
  {
    assert ToLower(p) == p;
  }

  function PathOf(area: Area): string {
    match area
    case Dashboard => "/dashboard"
    case Games => "/games"
    case Library => "/library"
    case Doctors => "/doctors"
    case Community => "/community"
    case MyJourney => "/my-journey"
    case DailyGoals => "/daily-goals"
    case Music => "/music"
    case Support => "/support"
  }

  /** Every protected screen is reachable by its path. */
  lemma RouteOfPath(area: Area)
    ensures RouteOf(PathOf(area)) == Feature(area)
    ensures RouteOf(ToLower(PathOf(area)) + "/") == Feature(area)
  {
    var p := PathOf(area);
    PathIsCanonical(area);
    DeclaredPath(area);
    CanonicalIgnoresCaseAndSlash(p);
    CanonicalIgnoresCaseAndSlash(ToLower(p));
    assert Canonical(ToLower(p) + "/") == p;
  }

  /** `/Games/` is the games screen. */
  lemma MixedCaseWithSlash()
    ensures RouteOf("/Games/") == Feature(Games)
  {
    RouteIgnoresCaseAndSlash("/Games");
    LowerGames();
    RouteOfPath(Games);
    assert "/Games" + "/" == "/Games/";
  }

  lemma LowerGames()
    ensures ToLower("/Games") == "/games"
  {
    var l := ToLower("/Games");
    assert l[1] == LowerChar('G') == 'g';
    assert forall i :: 0 <= i < 6 ==> l[i] == "/games"[i];
  }

  /** The dashboard's shop and food links lead to no declared route. */
  lemma ShopLinksUnrouted()
    ensures RouteOf("/shopping") == Unrouted
    ensures RouteOf("/food") == Unrouted
  {
    UndeclaredLink("/shopping");
    UndeclaredLink("/food");
  }

  lemma UndeclaredLink(p: string)
    requires p == "/shopping" || p == "/food"
    ensures RouteOf(p) == Unrouted
  {
    assert p[|p| - 1] != '/';
    assert forall i :: 0 <= i < |p| ==> !('A' <= p[i] <= 'Z');
    CanonicalPath(p);
    assert Declared(p) == Unrouted;
  }

  lemma DeclaredPath(area: Area)
    ensures Declared(PathOf(area)) == Feature(area)
  {
  }

  lemma PathIsCanonical(area: Area)
    ensures Canonical(PathOf(area)) == PathOf(area)
  {
    var p := PathOf(area);
    assert p[|p| - 1] != '/';
    assert forall i :: 0 <= i < |p| ==> !('A' <= p[i] <= 'Z');
    CanonicalPath(p);
  }

  datatype Decision = Render | ToAuth | ToAssessment | ToDashboard | NoMatch

  /** The three onboarding stages, defined from the session alone. A user
      counts first: a set flag without a user is still anonymous. */
  datatype Stage = Anonymous | Pending | Onboarded

  function StageOf(s: State): Stage {
    if s.user.None? then Anonymous
    else if !s.assessmentDone then Pending
    else Onboarded
  }

  /** `ProtectedRoute`: the user is checked before the flag. */
  function Protected(s: State): (d: Decision)
    ensures d == Render <==> StageOf(s) == Onboarded
    ensures d == ToAuth <==> StageOf(s) == Anonymous
    ensures d == ToAssessment <==> StageOf(s) == Pending
  {
    if s.user.None? then ToAuth
    else if !s.assessmentDone then ToAssessment
    else Render
  }

  /** The element each route renders for the current session. */
  function Decide(route: Route, s: State): (d: Decision)
    ensures route.Feature? ==> d == Protected(s)
    ensures route == Landing || route == AuthRoute ==>
              (d == Render <==> StageOf(s) == Anonymous) && (d == Render || d == ToDashboard)
    ensures route == AssessmentRoute ==>
              (d == Render <==> StageOf(s) == Pending) && (d == Render || d == ToDashboard)
    ensures d == NoMatch <==> route == Unrouted
  {
    match route
    case Landing => if s.user.None? then Render else ToDashboard
    case AuthRoute => if s.user.None? then Render else ToDashboard
    case AssessmentRoute => if s.user.Some? && !s.assessmentDone then Render else ToDashboard
    case Feature(_) => Protected(s)
    case Unrouted => NoMatch
  }

  /** Where a redirect leads. */
  function Target(d: Decision): Option<Route> {
    match d
    case ToAuth => Some(AuthRoute)
    case ToAssessment => Some(AssessmentRoute)
    case ToDashboard => Some(Feature(Dashboard))
    case _ => None
  }

  /** Follow redirects for at most `fuel` hops; the route finally shown. */
  function Settle(route: Route, s: State, fuel: nat): (r: Option<Route>)
    decreases fuel
  {
    var d := Decide(route, s);
    if d == Render then Some(route)
    else if fuel == 0 || Target(d).None? then None
    else Settle(Target(d).value, s, fuel - 1)
  }

  /** The screen a session lands on, from its stage alone. */
  function Home(s: State): Route {
    match StageOf(s)
    case Anonymous => AuthRoute
    case Pending => AssessmentRoute
    case Onboarded => Feature(Dashboard)
  }

  /** A page reload. The first render comes before the start-up effect,
      so it decides with nobody signed in, and the redirect it issues runs
      before the session is restored; the restored session `s` then
      decides from wherever that led. */
  function Reload(route: Route, s: State): (r: Option<Route>)
    ensures route.Feature? || route == AssessmentRoute ==> r == Some(Home(s))
    ensures route == Landing || route == AuthRoute ==> r == Settle(route, s, 2)
    ensures route == Unrouted ==> r.None?
  {
    var first := Decide(route, Initial);
    if first == Render then Settle(route, s, 2)
    else if Target(first).None? then None
    else
      RedirectsSettle(Target(first).value, s);
      Settle(Target(first).value, s, 2)
  }

  /** Reloading any protected screen other than the dashboard, signed in
      and onboarded, ends on the dashboard although the restored session
      would render the screen itself. */
  lemma ReloadLosesScreen(area: Area, s: State)
    requires StageOf(s) == Onboarded && area != Dashboard
    ensures Decide(Feature(area), s) == Render
    ensures Reload(Feature(area), s) == Some(Feature(Dashboard))
  {
  }

  /** A reload that restores the session before the first render (in the
      `useState` initialisers instead of an effect). */
  function ReloadRestoredFirst(route: Route, s: State): (r: Option<Route>)
    ensures route != Unrouted ==> r.Some?
    ensures Decide(route, s) == Render ==> r == Some(route)
    ensures route != Unrouted && Decide(route, s) != Render ==> r == Some(Home(s))
  {
    if route == Unrouted then Settle(route, s, 2)
    else
      RedirectsSettle(route, s);
      Settle(route, s, 2)
  }

  /** With the session restored first, a reload stays on the screen the
      session may see. */
  lemma ReloadRestoredFirstKeepsScreen(area: Area, s: State)
    requires StageOf(s) == Onboarded
    ensures ReloadRestoredFirst(Feature(area), s) == Some(Feature(area))
  {
  }

  /** Redirects never loop: from any declared path, at most two redirects
      reach a rendered screen, and the screen reached is the one the
      session's stage allows. */
  lemma {:induction false} RedirectsSettle(route: Route, s: State)
    requires route != Unrouted
    ensures Settle(route, s, 2).Some?
    ensures Decide(route, s) != Render ==> Settle(route, s, 2) == Some(Home(s))
  {
    var d := Decide(route, s);
    if d != Render {
      var t := Target(d).value;
      if Decide(t, s) != Render {
        var t2 := Target(Decide(t, s)).value;
        assert Decide(t2, s) == Render;
      }
    }
  }

  /** A stale flag without a user still goes to the sign-in page. */
  lemma StaleFlagGoesToAuth(s: State, area: Area)
    requires s.user.None? && s.assessmentDone
    ensures Decide(Feature(area), s) == ToAuth
  {
  }

  /** The screen shown depends only on the stage. */
  lemma DecideByStage(route: Route, s: State, t: State)
    requires StageOf(s) == StageOf(t)
    ensures Decide(route, s) == Decide(route, t)
  {
  }

  /** Completing the assessment from the screen the gate renders keeps the
      invariant "flag set implies user present"; login and logout keep it
      from any state. */
  lemma HandlersKeepConsistent(a: App, u: User, j: Json)
    ensures Consistent(Login(a, u, j).state)
    ensures Consistent(Logout(a).state)
    ensures Decide(AssessmentRoute, a.state) == Render ==> Consistent(CompleteAssessment(a).state)
  {
  }

  /** The onboarding order: signing in leads to the assessment, completing
      it opens the protected screens, and signing out closes them again. */
  lemma OnboardingOrder(a: App, u: User, j: Json, area: Area)
    ensures Decide(Feature(area), Login(a, u, j).state) == ToAssessment
    ensures Decide(AssessmentRoute, Login(a, u, j).state) == Render
    ensures Decide(Feature(area), CompleteAssessment(Login(a, u, j)).state) == Render
    ensures Decide(AssessmentRoute, CompleteAssessment(Login(a, u, j)).state) == ToDashboard
    ensures Decide(Feature(area), Logout(a).state) == ToAuth
  {
  }
}
