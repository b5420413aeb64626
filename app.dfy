/** The render decisions of services/frontend/src/App.tsx: the session gate
    in `App` and in `Protected`, the sign-in navigation, and the route table
    of the authenticated shell. */
module App {
  import opened Wrappers
  import opened Text
  import opened Web
  import AuthContext

  /** The screens the static routes name. */
  datatype Screen =
    | RedirectTo(target: string)
    | Dashboard | Pipelines | DataSources | Storage | AiModels | AiPlayground
    | Monitoring | Analytics | Costs | Settings | Metadata

  /** What the shell's route table shows: a listed screen, the embedded
      view of a service, or "Not found". */
  datatype Page = Listed(screen: Screen) | Embedded(service: string) | NotFound

  /** The static routes, in declaration order. */
  const StaticRoutes: seq<(string, Screen)> := [
    ("/", RedirectTo("/dashboard")),
    ("/dashboard", Dashboard),
    ("/pipelines", Pipelines),
    ("/data-sources", DataSources),
    ("/storage", Storage),
    ("/ai-models", AiModels),
    ("/ai-playground", AiPlayground),
    ("/monitoring", Monitoring),
    ("/analytics", Analytics),
    ("/costs", Costs),
    ("/settings", Settings),
    ("/metadata", Metadata)
  ]

  const EmbeddedPrefix := "/embedded/"

  /** A path of the form /embedded/:service: one more non-empty segment. */
  predicate IsEmbeddedPath(path: string) {
    StartsWith(path, EmbeddedPrefix) && |path| > |EmbeddedPrefix| &&
    forall i :: |EmbeddedPrefix| <= i < |path| ==> path[i] != '/'
  }

  function LookupStatic(routes: seq<(string, Screen)>, path: string): (r: Option<Screen>)
    ensures r.None? <==> forall i :: 0 <= i < |routes| ==> routes[i].0 != path
    ensures r.Some? ==> exists i :: 0 <= i < |routes| && routes[i] == (path, r.value)
  {
    if routes == [] then None
    else if routes[0].0 == path then Some(routes[0].1)
    else
      var r := LookupStatic(routes[1..], path);
      assert r.Some? ==> exists i :: 1 <= i < |routes| && routes[i] == (path, r.value);
      r
  }

  /** The element <Routes> renders for a location path. */
  function Route(path: string): (p: Page)
    ensures p.Embedded? ==> IsEmbeddedPath(path) && p.service == path[|EmbeddedPrefix|..]
  {
    match LookupStatic(StaticRoutes, path)
    case Some(screen) => Listed(screen)
    case None =>
      if IsEmbeddedPath(path) then Embedded(path[|EmbeddedPrefix|..]) else NotFound
  }

  /** "Not found" is shown exactly for the paths the table does not list. */
  lemma NotFoundExactlyUnlisted(path: string)
    ensures Route(path) == NotFound <==>
      (forall i :: 0 <= i < |StaticRoutes| ==> StaticRoutes[i].0 != path) && !IsEmbeddedPath(path)
  {
  }

  /** The root redirects to the dashboard. */
  lemma RootRedirects()
    ensures Route("/") == Listed(RedirectTo("/dashboard"))
    ensures Route("/dashboard") == Listed(Dashboard)
  {
  }

  /** One extra segment after /embedded/ names the embedded service; two do not match. */
  lemma EmbeddedTakesOneSegment(service: string)
    requires service != [] && forall i :: 0 <= i < |service| ==> service[i] != '/'
    ensures Route(EmbeddedPrefix + service) == Embedded(service)
    ensures Route(EmbeddedPrefix + service + "/x") == NotFound
  {
    var p := EmbeddedPrefix + service;
    assert p[..|EmbeddedPrefix|] == EmbeddedPrefix;
    assert p[|EmbeddedPrefix|..] == service;
    assert p[1] == 'e';
    var q := p + "/x";
    assert q[|p|] == '/';
    assert !IsEmbeddedPath(q);
    assert forall i :: 0 <= i < |StaticRoutes| ==> StaticRoutes[i].0 != q by {
      forall i | 0 <= i < |StaticRoutes|
        ensures StaticRoutes[i].0 != q
      {
        assert |StaticRoutes[i].0| < |q| || StaticRoutes[i].0[|StaticRoutes[i].0| - 1] != 'x';
      }
    }
    assert forall i :: 0 <= i < |StaticRoutes| ==> StaticRoutes[i].0 != p by {
      forall i | 0 <= i < |StaticRoutes|
        ensures StaticRoutes[i].0 != p
      {
        assert |StaticRoutes[i].0| < 2 || StaticRoutes[i].0[1] != 'e';
      }
    }
  }

  /** What `App` renders. */
  datatype View = Spinner | SignInScreen | Shell(page: Page)

  function AppView(loading: bool, user: Option<AuthContext.User>, path: string): (v: View)
    // while loading only the spinner renders, whoever the user is
    ensures loading <==> v.Spinner?
    // settled without a user: the sign-in screen and no routes
    ensures !loading && user.None? <==> v.SignInScreen?
    // settled with a user: the shell with the routed page
    ensures !loading && user.Some? <==> v == Shell(Route(path))
  {
    if loading then Spinner
    else if user.None? then SignInScreen
    else Shell(Route(path))
  }

  /** What `Protected` renders. */
  datatype Guard = CheckingSession | LoginPrompt | Children

  function ProtectedView(loading: bool, user: Option<AuthContext.User>): (g: Guard)
    ensures g == CheckingSession <==> loading
    ensures g == LoginPrompt <==> !loading && user.None?
    ensures g == Children <==> !loading && user.Some?
  {
    if loading then CheckingSession
    else if user.None? then LoginPrompt
    else Children
  }

  /** `Protected` and `App` make the same three-way decision. */
  lemma GateAgreement(loading: bool, user: Option<AuthContext.User>, path: string)
    ensures ProtectedView(loading, user) == CheckingSession <==> AppView(loading, user, path) == Spinner
    ensures ProtectedView(loading, user) == LoginPrompt <==> AppView(loading, user, path) == SignInScreen
    ensures ProtectedView(loading, user) == Children <==> AppView(loading, user, path).Shell?
  {
  }

  const SignInPrefix := "/api/auth/start-login?client_id=udo&redirect_uri="

  /** The sign-in target: client_id udo and the page origin, URL-encoded, as
      redirect_uri. */
  function SignInUrl(origin: string): (url: string)
    ensures StartsWith(url, SignInPrefix)
    ensures url[|SignInPrefix|..] == EncodeUriComponent(origin)
    // the encoded origin adds no parameter of its own
    ensures forall i :: |SignInPrefix| <= i < |url| ==> url[i] != '&' && url[i] != '#'
  {
    var url := SignInPrefix + EncodeUriComponent(origin);
    assert url[..|SignInPrefix|] == SignInPrefix;
    url
  }

  /** The login endpoint reads back the exact origin from `redirect_uri`,
      and different origins give different targets. */
  lemma SignInOriginReadBack(origin: string, other: string)
    ensures DecodeUriComponent(SignInUrl(origin)[|SignInPrefix|..]) == Some(origin)
    ensures SignInUrl(origin) == SignInUrl(other) ==> origin == other
  {
    DecodeEncode(origin);
    DecodeEncode(other);
  }

  /** The Sign In button: a full navigation to the sign-in target. */
  method SignIn(browser: Browser)
    modifies browser
    ensures browser.href == Some(SignInUrl(browser.origin))
    ensures browser.storedToken == old(browser.storedToken) && browser.fetches == old(browser.fetches)
    ensures browser.query == old(browser.query)
  {
    browser.Navigate(SignInUrl(browser.origin));
  }
}
