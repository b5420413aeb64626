/** The session bootstrap of services/frontend/src/context/AuthContext.tsx.
    On mount the provider installs a token persisted in sessionStorage,
    exchanges a `code` query parameter for a token when none was persisted,
    fetches the profile when sessionStorage then holds a token, and always
    ends with `loading` false. The two network answers are oracle inputs. */
module AuthContext {
  import opened Wrappers
  import opened Text
  import opened Web
  import Api

  /** The profile returned by /api/auth/me. */
  datatype User = User(
    id: Option<string>,
    name: Option<string>,
    email: Option<string>,
    preferredUsername: Option<string>)

  /** The JSON body of the code exchange, as far as it is read. */
  datatype TokenReply = TokenReply(accessToken: Option<string>)

  const CodeKey := "code"
  const CallbackPrefix := "/api/auth/callback?code="
  const LoginUrl := "/api/auth/start-login"
  const LogoutUrl := "/api/auth/logout"

  /** The bare fetch that exchanges a code: no options, so no headers, no
      credentials and no redirect_uri. */
  function ExchangeCall(base: string, code: string): (call: FetchCall)
    ensures call.init == NoInit
    ensures StartsWith(call.url, base + CallbackPrefix)
    ensures call.url[|base + CallbackPrefix|..] == EncodeUriComponent(code)
    // the encoded code cannot open a second parameter or a fragment
    ensures forall i :: |base + CallbackPrefix| <= i < |call.url| ==>
              call.url[i] != '&' && call.url[i] != '#' && call.url[i] != '='
  {
    var url := base + CallbackPrefix + EncodeUriComponent(code);
    assert url[..|base + CallbackPrefix|] == base + CallbackPrefix;
    FetchCall(url, NoInit)
  }

  /** The callback endpoint reads back exactly the code it was given, and
      different codes make different requests. */
  lemma ExchangeCodeReadBack(base: string, code: string, other: string)
    ensures DecodeUriComponent(ExchangeCall(base, code).url[|base + CallbackPrefix|..]) == Some(code)
    ensures ExchangeCall(base, code) == ExchangeCall(base, other) ==> code == other
  {
    DecodeEncode(code);
    DecodeEncode(other);
  }

  /** The profile fetch, issued through the request client with its token. */
  function ProfileCall(base: string, token: Option<string>): FetchCall {
    Api.PlanFetch(base, token, Api.MePath, Api.NoOptions)
  }

  /** Everything the bootstrap reads or writes: sessionStorage, the client's
      in-memory token, the query string, the fetch log, the navigation target,
      and the provider's `user`, `loading` and `error`. */
  datatype Session = Session(
    storedToken: Option<string>,
    authToken: Option<string>,
    query: seq<Param>,
    fetches: seq<FetchCall>,
    href: Option<string>,
    user: Option<User>,
    loading: bool,
    error: Option<string>)

  /** The state after the bootstrap, and whether its promise rejected (an
      exception that escaped through the `finally`). */
  datatype Boot = Boot(after: Session, rejected: bool)

  /** Lines 47-54: with a token in sessionStorage, call /api/auth/me and keep
      the profile, or null on any failure. */
  function FetchProfile(s: Session, base: string, profile: Response<User>): Session {
    if Truthy(s.storedToken) then
      s.(fetches := s.fetches + [ProfileCall(base, s.authToken)],
         user := match Api.Fold(profile) case Ok(u) => Some(u) case Err(_) => None)
    else s
  }

  /** Whether the bootstrap attempts the exchange: a truthy code and no truthy
      persisted token. */
  predicate Exchanges(s: Session) {
    Truthy(GetParam(s.query, CodeKey)) && !Truthy(s.storedToken)
  }

  /** Whether the exchange produced a token (the branch of lines 36-43). */
  predicate ExchangeGivesToken(exchange: Response<TokenReply>) {
    exchange.Ok() && exchange.body.Some? && Truthy(exchange.body.value.accessToken)
  }

  /** Whether the exchange throws: no response, or a 2xx body that does not parse. */
  predicate ExchangeThrows(exchange: Response<TokenReply>) {
    exchange.NetworkError? || (exchange.Ok() && exchange.body.None?)
  }

  /** Lines 22-30: install a persisted token in the client, then set
      `loading`. */
  function Prepare(s: Session): Session {
    (if Truthy(s.storedToken) then s.(authToken := s.storedToken) else s).(loading := true)
  }

  /** Lines 31-45: exchange the code when there is one and no persisted
      token; an exchange that throws ends the run through the `finally`. */
  function Exchange(s: Session, base: string, exchange: Response<TokenReply>): Boot {
    if Exchanges(s) then
      var s1 := s.(fetches := s.fetches + [ExchangeCall(base, GetParam(s.query, CodeKey).value)]);
      if ExchangeThrows(exchange) then
        Boot(s1.(loading := false), true)
      else if ExchangeGivesToken(exchange) then
        var t := exchange.body.value.accessToken;
        Boot(s1.(storedToken := t, authToken := t, query := DeleteParam(s1.query, CodeKey)), false)
      else
        Boot(s1, false)
    else
      Boot(s, false)
  }

  /** The mount effect and its `bootstrap`, as one sequential run. */
  function Bootstrap(s: Session, base: string, exchange: Response<TokenReply>, profile: Response<User>): Boot {
    var e := Exchange(Prepare(s), base, exchange);
    if e.rejected then e
    else Boot(FetchProfile(e.after, base, profile).(loading := false), false)
  }

  /** A token persisted at mount is installed in the client before any
      network call; then the code is ignored and left in the URL, nothing is
      exchanged, and the profile is fetched exactly once with that token. */
  lemma PersistedTokenSkipsExchange(s: Session, base: string, exchange: Response<TokenReply>, profile: Response<User>)
    requires Truthy(s.storedToken)
    ensures var b := Bootstrap(s, base, exchange, profile);
      !b.rejected &&
      b.after.authToken == s.storedToken &&
      b.after.storedToken == s.storedToken &&
      b.after.query == s.query &&
      b.after.fetches == s.fetches + [ProfileCall(base, s.storedToken)]
    ensures ProfileCall(base, s.storedToken).init.headers[Api.Authorization] == "Bearer " + s.storedToken.value
  {
  }

  /** The network calls a bootstrap makes, in order: the exchange exactly when
      there is a code and no persisted token, then the profile exactly when
      sessionStorage holds a token by then and the exchange did not throw. */
  lemma BootstrapCalls(s: Session, base: string, exchange: Response<TokenReply>, profile: Response<User>)
    ensures var b := Bootstrap(s, base, exchange, profile);
      var code := GetParam(s.query, CodeKey);
      if Exchanges(s) then
        if ExchangeThrows(exchange) then
          b.after.fetches == s.fetches + [ExchangeCall(base, code.value)]
        else if ExchangeGivesToken(exchange) then
          b.after.fetches == s.fetches + [ExchangeCall(base, code.value),
                                          ProfileCall(base, exchange.body.value.accessToken)]
        else
          // no token was persisted, so no profile fetch either
          b.after.fetches == s.fetches + [ExchangeCall(base, code.value)]
      else if Truthy(s.storedToken) then
        b.after.fetches == s.fetches + [ProfileCall(base, s.storedToken)]
      else
        b.after.fetches == s.fetches && b.after.user == s.user
  {
    if Exchanges(s) {
      ExchangeCalls(s, base, exchange, profile);
    } else {
      NoExchangeCalls(s, base, exchange, profile);
    }
  }

  /** What the exchange step leaves behind: one more fetch, and a truthy
      stored token exactly when the reply carried one. */
  lemma ExchangeStep(p: Session, base: string, exchange: Response<TokenReply>)
    requires Exchanges(p)
    ensures var e := Exchange(p, base, exchange);
      e.after.fetches == p.fetches + [ExchangeCall(base, GetParam(p.query, CodeKey).value)] &&
      e.rejected == ExchangeThrows(exchange) &&
      (!e.rejected && ExchangeGivesToken(exchange) ==>
         e.after.storedToken == e.after.authToken == exchange.body.value.accessToken &&
         Truthy(e.after.storedToken)) &&
      (!e.rejected && !ExchangeGivesToken(exchange) ==> !Truthy(e.after.storedToken))
  {
  }

  /** The calls of a bootstrap that exchanges a code. */
  lemma ExchangeCalls(s: Session, base: string, exchange: Response<TokenReply>, profile: Response<User>)
    requires Exchanges(s)
    ensures var b := Bootstrap(s, base, exchange, profile);
      var call := ExchangeCall(base, GetParam(s.query, CodeKey).value);
      if ExchangeGivesToken(exchange) && !ExchangeThrows(exchange) then
        b.after.fetches == s.fetches + [call, ProfileCall(base, exchange.body.value.accessToken)]
      else
        b.after.fetches == s.fetches + [call]
  {
    var p := Prepare(s);
    assert Exchanges(p) && p.fetches == s.fetches && p.query == s.query;
    ExchangeStep(p, base, exchange);
  }

  /** The calls of a bootstrap that does not exchange. */
  lemma NoExchangeCalls(s: Session, base: string, exchange: Response<TokenReply>, profile: Response<User>)
    requires !Exchanges(s)
    ensures var b := Bootstrap(s, base, exchange, profile);
      if Truthy(s.storedToken) then
        b.after.fetches == s.fetches + [ProfileCall(base, s.storedToken)]
      else
        b.after.fetches == s.fetches && b.after.user == s.user
  {
    assert Exchange(Prepare(s), base, exchange) == Boot(Prepare(s), false);
  }

  /** sessionStorage and the client token change only on a 2xx exchange
      carrying a truthy access_token, and then both hold that token. */
  lemma TokenStoredOnlyOnSuccess(s: Session, base: string, exchange: Response<TokenReply>, profile: Response<User>)
    ensures var b := Bootstrap(s, base, exchange, profile);
      if Exchanges(s) && ExchangeGivesToken(exchange) then
        b.after.storedToken == exchange.body.value.accessToken &&
        b.after.authToken == exchange.body.value.accessToken
      else
        b.after.storedToken == s.storedToken &&
        b.after.authToken == (if Truthy(s.storedToken) then s.storedToken else s.authToken)
  {
  }

  /** Only the successful-token branch rewrites the URL, and it removes every
      `code` entry and keeps the other parameters in order; a failed or
      skipped exchange leaves the code in place. */
  lemma CodeStrippedOnlyOnSuccess(s: Session, base: string, exchange: Response<TokenReply>, profile: Response<User>)
    ensures var b := Bootstrap(s, base, exchange, profile);
      if Exchanges(s) && ExchangeGivesToken(exchange) then
        b.after.query == DeleteParam(s.query, CodeKey) &&
        GetParam(b.after.query, CodeKey).None?
      else
        b.after.query == s.query
  {
  }

  /** A failed profile fetch, whether the token was persisted at mount or
      just obtained from the exchange, leaves `user` null and does not purge
      the token. */
  lemma ProfileFailureKeepsToken(s: Session, base: string, exchange: Response<TokenReply>, profile: Response<User>)
    requires var e := Exchange(Prepare(s), base, exchange);
      !e.rejected && Truthy(e.after.storedToken) && Api.Fold(profile).Err?
    ensures var b := Bootstrap(s, base, exchange, profile);
      var e := Exchange(Prepare(s), base, exchange);
      b.after.user == None && b.after.storedToken == e.after.storedToken &&
      b.after.fetches == e.after.fetches + [ProfileCall(base, e.after.authToken)]
  {
  }

  /** Every path, including an exchange that throws, ends with `loading`
      false; `error` and the navigation target are never written. */
  lemma BootstrapSettles(s: Session, base: string, exchange: Response<TokenReply>, profile: Response<User>)
    ensures var b := Bootstrap(s, base, exchange, profile);
      !b.after.loading && b.after.error == s.error && b.after.href == s.href
    ensures Bootstrap(s, base, exchange, profile).rejected <==> Exchanges(s) && ExchangeThrows(exchange)
  {
  }

  /** The context provider: its own state plus the page's browser and the
      request client it drives. */
  class AuthProvider {
    const browser: Browser
    const client: Api.Client
    var user: Option<User>
    var loading: bool
    var error: Option<string>

    function State(): Session
      reads this, browser, client
    {
      Session(browser.storedToken, client.authToken, browser.query, browser.fetches,
              browser.href, user, loading, error)
    }

    /** useState(null), useState(true), useState(null). */
    constructor (browser: Browser, client: Api.Client)
      ensures this.browser == browser && this.client == client
      ensures user == None && loading && error == None
    {
      this.browser := browser;
      this.client := client;
      user := None;
      loading := true;
      error := None;
    }

    /** The mount effect (lines 21-60), given the answers of the exchange and
        of the profile endpoint. */
    method Mount(exchange: Response<TokenReply>, profile: Response<User>) returns (rejected: bool)
      modifies this, browser, client
      ensures Boot(State(), rejected) == Bootstrap(old(State()), client.base, exchange, profile)
    {
      var existing := browser.storedToken;
      if Truthy(existing) {
        client.SetAuthToken(existing);
      }
      loading := true;
      rejected := ExchangeCode(exchange);
      if rejected {
        return;
      }
      LoadProfile(profile);
      loading := false;
    }

    /** Lines 31-45 of the mount effect. */
    method ExchangeCode(exchange: Response<TokenReply>) returns (rejected: bool)
      modifies this, browser, client
      ensures Boot(State(), rejected) == Exchange(old(State()), client.base, exchange)
    {
      var code := GetParam(browser.query, CodeKey);
      rejected := false;
      if Truthy(code) && !Truthy(browser.storedToken) {
        var r := browser.Fetch(ExchangeCall(client.base, code.value), exchange);
        if r.NetworkError? || (r.Ok() && r.body.None?) {
          loading := false;
          rejected := true;
          return;
        }
        if r.Ok() {
          var token := r.body.value.accessToken;
          if Truthy(token) {
            browser.SetStoredToken(token);
            client.SetAuthToken(token);
            browser.ReplaceQuery(DeleteParam(browser.query, CodeKey));
          }
        }
      }
    }

    /** Lines 47-54 of the mount effect. */
    method LoadProfile(profile: Response<User>)
      modifies this, browser
      ensures State() == FetchProfile(old(State()), client.base, profile)
    {
      if Truthy(browser.storedToken) {
        var me := client.Request(browser, Api.MePath, Api.NoOptions, profile);
        user := if me.Ok? then Some(me.value) else None;
      }
    }

    /** setToken: both token stores take a truthy value; a null or empty
        value is still given to the client but removes the stored token. */
    method SetToken(t: Option<string>)
      modifies browser, client
      ensures client.authToken == t
      ensures browser.storedToken == (if Truthy(t) then t else None)
      ensures browser.query == old(browser.query) && browser.fetches == old(browser.fetches)
      ensures browser.href == old(browser.href)
    {
      client.SetAuthToken(t);
      if Truthy(t) {
        browser.SetStoredToken(t);
      } else {
        browser.SetStoredToken(None);
      }
    }

    /** login: a full navigation to the login endpoint, without parameters. */
    method Login()
      modifies browser
      ensures browser.href == Some(LoginUrl)
      ensures browser.storedToken == old(browser.storedToken) && browser.fetches == old(browser.fetches)
      ensures browser.query == old(browser.query)
    {
      browser.Navigate(LoginUrl);
    }

    /** logout: a full navigation; no local state is touched first, so calling
        it twice, or when signed out, does the same thing. */
    method Logout()
      modifies browser
      ensures browser.href == Some(LogoutUrl)
      ensures browser.storedToken == old(browser.storedToken) && browser.fetches == old(browser.fetches)
      ensures browser.query == old(browser.query)
    {
      browser.Navigate(LogoutUrl);
    }
  }
}
