/** The request client of services/frontend/src/lib/api.ts: the API base
    chosen at build time, the module-level bearer token, the headers and
    fetch options every request gets, and the folding of responses into a
    value or an error. */
module Api {
  import opened Wrappers
  import opened Text
  import opened Web

  /** normalizeBase: an empty base stays empty; a base naming the in-cluster
      `backend:` host falls back to relative URLs; otherwise one trailing '/'
      is dropped. */
  function NormalizeBase(b: string): (r: string)
    // the result is always a prefix of the configured value
    ensures StartsWith(b, r)
    ensures r == "" <==> b == "" || Contains(b, "backend:") || b == "/"
    // a non-empty result is the value itself, or the value less its one trailing '/'
    ensures r != "" ==> (r == b && b[|b| - 1] != '/') || r + "/" == b
  {
    if b == "" then ""
    else if Contains(b, "backend:") then ""
    else if b[|b| - 1] == '/' then b[..|b| - 1]
    else b
  }

  /** Only one slash is dropped, so normalising twice differs from normalising once. */
  lemma NormalizeBaseNotIdempotent()
    ensures NormalizeBase("x//") == "x/"
    ensures NormalizeBase(NormalizeBase("x//")) == "x"
  {
    assert !Contains("x//", "backend:") by {
      if Contains("x//", "backend:") {
        var i := ContainsWitness("x//", "backend:");
      }
    }
    assert !Contains("x/", "backend:") by {
      if Contains("x/", "backend:") {
        var i := ContainsWitness("x/", "backend:");
      }
    }
  }

  /** Any value naming the `backend:` host, wherever it occurs, yields relative URLs. */
  lemma InternalHostIsRelative(prefix: string, suffix: string)
    ensures NormalizeBase(prefix + "backend:" + suffix) == ""
  {
    ContainsInfix(prefix, "backend:", suffix);
  }

  const ContentType := "Content-Type"
  const Authorization := "Authorization"

  /** The headers record of `request`: Content-Type JSON, overridden by the
      caller's own headers, then Authorization when the module token is truthy. */
  function BuildHeaders(caller: map<string, string>, token: Option<string>): (h: map<string, string>)
    ensures h.Keys == caller.Keys + {ContentType} + (if Truthy(token) then {Authorization} else {})
    // the JSON content type is the default, and the caller's value wins on a clash
    ensures h[ContentType] == (if ContentType in caller then caller[ContentType] else "application/json")
    // with a token, Authorization is the bearer token whatever the caller passed
    ensures Truthy(token) ==> h[Authorization] == "Bearer " + token.value
    // every other caller header passes through
    ensures forall k :: k in caller && k != ContentType && k != Authorization ==> h[k] == caller[k]
    ensures !Truthy(token) && Authorization in caller ==> h[Authorization] == caller[Authorization]
  {
    var base := map[ContentType := "application/json"] + caller;
    if Truthy(token) then base[Authorization := "Bearer " + token.value] else base
  }

  /** The RequestInit a caller may pass. A field set to None is absent. */
  datatype Options = Options(
    headers: Option<map<string, string>>,
    credentials: Option<string>,
    httpMethod: Option<string>,
    body: Option<string>)

  const NoOptions := Options(None, None, None, None)

  /** The fetch that `request(path, options)` issues: `API_BASE + path` and
      `{ credentials: 'include', headers, ...options }`, so that fields of
      `options` are spread over the constructed ones. */
  function PlanFetch(base: string, token: Option<string>, path: string, options: Options): (call: FetchCall)
    ensures call.url == base + path
    ensures call.init.credentials == Some(options.credentials.GetOr("include"))
    // a caller-supplied headers record replaces the constructed one altogether
    ensures options.headers.Some? ==> call.init.headers == options.headers.value
    ensures options.headers.None? ==> call.init.headers == BuildHeaders(map[], token)
    ensures call.init.httpMethod == options.httpMethod && call.init.body == options.body
  {
    var constructed := BuildHeaders(options.headers.GetOr(map[]), token);
    FetchCall(base + path,
      FetchInit(
        Some(options.credentials.GetOr("include")),
        options.headers.GetOr(constructed),
        options.httpMethod,
        options.body))
  }

  /** Without caller options every request carries the JSON content type,
      the bearer token exactly when one is set, and credentials. */
  lemma PlainRequestHeaders(base: string, token: Option<string>, path: string)
    ensures var h := PlanFetch(base, token, path, NoOptions).init.headers;
      h[ContentType] == "application/json" &&
      (Authorization in h <==> Truthy(token)) &&
      (Truthy(token) ==> h[Authorization] == "Bearer " + token.value)
    ensures PlanFetch(base, token, path, NoOptions).init.credentials == Some("include")
  {
  }

  /** Passing a headers record loses the bearer token even when one is set. */
  lemma CallerHeadersDropToken(base: string, token: Option<string>, path: string, options: Options)
    requires options.headers.Some? && Authorization !in options.headers.value
    ensures Authorization !in PlanFetch(base, token, path, options).init.headers
  {
  }

  datatype RequestError = FetchFailed | StatusError(status: int) | InvalidJson

  /** The message of the Error thrown for a failed request; a failed fetch or
      a body that does not parse rejects with the browser's own error. */
  function ErrorMessage(e: RequestError): (m: Option<string>)
    ensures e.StatusError? <==> m.Some?
    ensures e.StatusError? ==> m.value == "Request failed " + IntToString(e.status)
  {
    match e
    case StatusError(s) => Some("Request failed " + IntToString(s))
    case _ => None
  }

  /** The message shown for a failed request carries its status: different
      statuses never give the same message. */
  lemma ErrorMessageDeterminesStatus(a: int, b: int)
    requires ErrorMessage(StatusError(a)) == ErrorMessage(StatusError(b))
    ensures a == b
  {
    var prefix := "Request failed ";
    var ma, mb := prefix + IntToString(a), prefix + IntToString(b);
    assert ma[|prefix|..] == IntToString(a) && mb[|prefix|..] == IntToString(b);
    if a < 0 {
      assert IntToString(a)[1..] == NatToString(-a);
      assert IntToString(b)[1..] == NatToString(-b);
      NatToStringInjective(-a, -b);
    } else {
      NatToStringInjective(a, b);
    }
  }

  /** What `request` resolves or rejects with, given the network's answer. */
  function Fold<T>(response: Response<T>): (r: Result<T, RequestError>)
    ensures r.Ok? <==> response.Ok() && response.body.Some?
    ensures r.Ok? ==> r.value == response.body.value
    // every non-2xx status is reported with that status, whatever the body
    ensures response.Reply? && !response.Ok() ==> r == Err(StatusError(response.status))
    ensures response.NetworkError? ==> r == Err(FetchFailed)
  {
    match response
    case NetworkError => Err(FetchFailed)
    case Reply(status, body) =>
      if !response.Ok() then Err(StatusError(status))
      else if body.None? then Err(InvalidJson)
      else Ok(body.value)
  }

  const MePath := "/api/auth/me"
  const PipelinesPath := "/api/v1/pipelines"
  const AiSqlPath := "/api/v1/ai-sql"

  /** api.aiSql(q): a POST whose body carries the question. */
  function AiSqlOptions(q: string): (o: Options)
    ensures o.httpMethod == Some("POST") && o.body == Some(q) && o.headers.None? && o.credentials.None?
  {
    Options(None, None, Some("POST"), Some(q))
  }

  /** The 0-based offset api.metadata.tables sends for a 1-based page. */
  function TablesOffset(limit: int, page: int): int {
    (page - 1) * limit
  }

  /** The path api.metadata.tables(limit, page) requests. */
  function TablesPath(limit: int, page: int): string {
    "/openmetadata/api/v1/tables?limit=" + IntToString(limit) + "&offset=" + IntToString(TablesOffset(limit, page))
  }

  /** Page 1 starts at offset 0 and each page starts where the previous one
      ended, so pages tile the listing. */
  lemma TablesPagesTile(limit: nat, page: int)
    requires page >= 1
    ensures TablesOffset(limit, 1) == 0
    ensures TablesOffset(limit, page) >= 0
    ensures TablesOffset(limit, page + 1) == TablesOffset(limit, page) + limit
  {
  }

  /** With the default arguments (limit 25, page 1) the request asks for offset 0. */
  lemma TablesDefaultPath()
    ensures TablesPath(25, 1) == "/openmetadata/api/v1/tables?limit=25&offset=0"
  {
    assert NatToString(25) == "25" by {
      assert NatToString(2) == "2";
    }
  }

  /** The request client: API_BASE and the module-level bearer token. */
  class Client {
    /** API_BASE, normalised once at start-up. */
    const base: string
    /** authToken */
    var authToken: Option<string>

    constructor (rawBase: string)
      ensures base == NormalizeBase(rawBase) && authToken == None
    {
      base := NormalizeBase(rawBase);
      authToken := None;
    }

    /** setAuthToken */
    method SetAuthToken(token: Option<string>)
      modifies this
      ensures authToken == token
    {
      authToken := token;
    }

    /** request(path, options): one fetch with the current token, folded. */
    method Request<T>(browser: Browser, path: string, options: Options, response: Response<T>)
      returns (r: Result<T, RequestError>)
      modifies browser
      ensures browser.fetches == old(browser.fetches) + [PlanFetch(base, authToken, path, options)]
      ensures browser.storedToken == old(browser.storedToken) && browser.query == old(browser.query)
      ensures browser.href == old(browser.href)
      ensures r == Fold(response)
    {
      var headers := map[ContentType := "application/json"] + options.headers.GetOr(map[]);
      if Truthy(authToken) {
        headers := headers[Authorization := "Bearer " + authToken.value];
      }
      var init := FetchInit(
        Some(options.credentials.GetOr("include")),
        options.headers.GetOr(headers),
        options.httpMethod,
        options.body);
      var res := browser.Fetch(FetchCall(base + path, init), response);
      if !res.Ok() {
        r := Err(if res.NetworkError? then FetchFailed else StatusError(res.status));
      } else if res.body.None? {
        r := Err(InvalidJson);
      } else {
        r := Ok(res.body.value);
      }
    }
  }
}
