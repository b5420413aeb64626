# UDO frontend, flows and AI SQL endpoint — a Dafny model

This project models the behavioural core of the UDO (Unified Data
Orchestration) platform and proves properties of it. It covers three parts.

- **The React frontend.**
  - The request client: API base normalisation, headers, fetch options, error folding, the tables page offset.
  - The session bootstrap of the auth context: the stored token, the code exchange, stripping `code` from the URL, the profile fetch.
  - The app's render gate and route table, and the sign-in redirect.
  - The utilities `formatDuration` and `getStatusColor`.
  - The data-source list handlers, the storage object filter and the bucket toggle.
  - The paged metadata table, and the AI SQL panel's conversion of result rows into a grid.
- **The two Prefect flows.**
  - `airbyte_to_duckdb`: trigger a sync, poll with exponential backoff up to a wait budget, run DuckDB statements, push metrics.
  - `data_sync_flow`: trigger a sync, poll until an exact terminal status, import, run a Great Expectations checkpoint, push metrics.
- **The FastAPI `ai-sql` endpoint.** It routes a question by keyword, creates the `products` table lazily and re-wraps errors.

## How the outside world is modelled

The model never performs I/O. Every answer from the outside world is a parameter:

- fetch responses (`Web.Response`: a network error, or a status plus a body that may fail to parse);
- Airbyte job polls (`Jobs.Poll`);
- DuckDB connections (`Jobs.DbScript`, `AiSql.Db`);
- the checkpoint outcome (`DataSyncFlow.GeRun`);
- failures of the metrics push.

The output side is recorded as data:

- the browser is a class (`Web.Browser`) holding the sessionStorage token slot, the query string, the navigation target and a log of fetch calls;
- database work is returned as a trace of operations.

Code that changes state step by step is modelled as classes and methods:

- the auth provider, the request client, the metadata pager and the AI SQL panel are classes;
- the polling loops and the statement loop are methods with loop invariants.

Each method is tied to a pure reference function, and the lemmas are stated about that function.

The model follows the code as written in three places a reader might expect otherwise:

- a token already in sessionStorage suppresses the code exchange, and the code then stays in the URL;
- the exchange request carries only `code`, with no `redirect_uri`;
- `code` is removed from the URL only on the successful-token branch.

Other behaviour the model states as the code has it:

- Passing any `headers` record to `request` replaces the constructed headers altogether, because `...options` is spread last. The default content type and the bearer token are then lost (`Api.CallerHeadersDropToken`).
- Stripping one trailing `/` means normalising the base is not idempotent.
- The backoff flow lower-cases job statuses before comparing them; the data-sync flow compares them exactly.
- In `ai_sql`, the "CSV missing" HTTPException raised inside the `try` is caught by the generic handler. Its detail becomes `DuckDB error: 500: Products metrics CSV missing`.

## Model

| member | source | states |
|---|---|---|
| Api.NormalizeBase | services/frontend/src/lib/api.ts:3-8 | the result is a prefix of the input; it is empty iff the input is empty, contains `backend:`, or is `/`; otherwise it is the input, less exactly one trailing `/` if present |
| Api.NormalizeBaseNotIdempotent | services/frontend/src/lib/api.ts:7 | `x//` becomes `x/` and then `x`, so normalising twice differs from normalising once |
| Api.InternalHostIsRelative | services/frontend/src/lib/api.ts:6 | any base with `backend:` anywhere in it gives relative URLs |
| Api.BuildHeaders | services/frontend/src/lib/api.ts:15-16 | Content-Type defaults to JSON and the caller's value wins; Authorization is `Bearer <token>` iff the token is truthy, overriding the caller's; other caller headers pass through |
| Api.PlanFetch | services/frontend/src/lib/api.ts:15-17 | the URL is base + path; credentials default to `include`; a caller `headers` record replaces the constructed headers; method and body are the caller's |
| Api.PlainRequestHeaders | services/frontend/src/lib/api.ts:15-17 | with no options, a request has the JSON content type, Authorization exactly when a token is set, and credentials `include` |
| Api.CallerHeadersDropToken | services/frontend/src/lib/api.ts:17 | caller headers without Authorization leave the request with no bearer token, even when one is set |
| Api.ErrorMessage | services/frontend/src/lib/api.ts:18-20 | a status failure is reported as `Request failed <status>`; the other failures carry no message of their own |
| Api.ErrorMessageDeterminesStatus | services/frontend/src/lib/api.ts:19 | the message names the status unambiguously: different statuses never give the same message |
| Api.Fold | services/frontend/src/lib/api.ts:17-21 | the result is Ok iff the status is 2xx and the body parses; a non-2xx status is an error carrying that status |
| Api.AiSqlOptions | services/frontend/src/lib/api.ts:29 | the AI SQL call is a POST with the question as body and no headers or credentials of its own |
| Api.TablesPagesTile | services/frontend/src/lib/api.ts:31 | page 1 starts at offset 0, and each page starts where the previous one ended |
| Api.TablesDefaultPath | services/frontend/src/lib/api.ts:31 | the default arguments request `limit=25&offset=0` |
| Api.Client.constructor | services/frontend/src/lib/api.ts:2-11 | the base is the normalised configured value, and no token is set |
| Api.Client.SetAuthToken | services/frontend/src/lib/api.ts:12 | the module token becomes the given value |
| Api.Client.Request | services/frontend/src/lib/api.ts:14-22 | exactly one fetch, the planned one, is appended to the log; nothing else in the browser changes; the result is the folded response |
| Web.EncodeUriComponent | services/frontend/src/App.tsx:56 | the output holds only unreserved characters and `%`; it is the input iff every input character is unreserved |
| Web.DecodeEncode | services/frontend/src/App.tsx:56 | decoding, as decodeURIComponent does, gives back the encoded string exactly, with each reserved character's UTF-8 escapes turning back into it |
| Web.EncodeUriComponentInjective | services/frontend/src/context/AuthContext.tsx:33 | different strings never encode to the same text |
| Web.GetParam | services/frontend/src/context/AuthContext.tsx:26-27 | the value of the first parameter with the key, or none iff no parameter has the key |
| Web.DeleteParam | services/frontend/src/context/AuthContext.tsx:40-41 | removes every entry with the key and keeps the others in order; it changes nothing when the key is absent |
| Web.Browser.Fetch | services/frontend/src/lib/api.ts:17 | appends the call to the fetch log, returns the given response, and leaves storage, URL and navigation alone |
| Web.Browser.SetStoredToken | services/frontend/src/context/AuthContext.tsx:37 | sets the sessionStorage slot and nothing else |
| Web.Browser.ReplaceQuery | services/frontend/src/context/AuthContext.tsx:42 | replaces the query string without navigating |
| Web.Browser.Navigate | services/frontend/src/App.tsx:57 | sets the navigation target and nothing else |
| AuthContext.ExchangeCall | services/frontend/src/context/AuthContext.tsx:33 | a plain GET whose URL is base + `/api/auth/callback?code=` followed by exactly `EncodeUriComponent(code)`, so nothing after the prefix can start another parameter or a fragment |
| AuthContext.ExchangeCodeReadBack | services/frontend/src/context/AuthContext.tsx:33 | decoding the text after the prefix yields exactly the code; different codes make different requests |
| AuthContext.PersistedTokenSkipsExchange | services/frontend/src/context/AuthContext.tsx:22-31 | a persisted token is installed in the client; no exchange happens; the code stays in the URL; the profile is fetched once with the bearer token |
| AuthContext.BootstrapCalls | services/frontend/src/context/AuthContext.tsx:28-58 | the exchange is called iff there is a code and no persisted token; the profile is fetched iff a token is stored by then and the exchange did not throw; with neither there is no call and `user` is unchanged |
| AuthContext.TokenStoredOnlyOnSuccess | services/frontend/src/context/AuthContext.tsx:34-38 | storage and the client token take the new token only on a 2xx exchange with a truthy `access_token`; otherwise both are unchanged |
| AuthContext.CodeStrippedOnlyOnSuccess | services/frontend/src/context/AuthContext.tsx:39-42 | only the successful-token branch removes `code`, keeping the other parameters; otherwise the query is unchanged |
| AuthContext.ProfileFailureKeepsToken | services/frontend/src/context/AuthContext.tsx:34-54 | whether the token was persisted at mount or just obtained from the exchange, a failed profile fetch leaves `user` null, keeps the stored token and adds exactly the one profile call |
| AuthContext.BootstrapSettles | services/frontend/src/context/AuthContext.tsx:28-58 | every path ends with `loading` false and `error` untouched; the effect rejects iff the exchange itself throws |
| AuthContext.AuthProvider.constructor | services/frontend/src/context/AuthContext.tsx:17-19 | no user, loading, no error |
| AuthContext.AuthProvider.Mount | services/frontend/src/context/AuthContext.tsx:21-60 | the state after mounting is the state `Bootstrap` computes from the state before |
| AuthContext.AuthProvider.ExchangeCode | services/frontend/src/context/AuthContext.tsx:31-45 | the state after the code exchange is the one `Exchange` computes: the fetch, and on a token the stored token, the client token and the stripped query; a throw settles `loading` |
| AuthContext.AuthProvider.LoadProfile | services/frontend/src/context/AuthContext.tsx:47-54 | the state after the profile step is the one `FetchProfile` computes: a fetch and a new `user` iff a token is stored |
| AuthContext.AuthProvider.SetToken | services/frontend/src/context/AuthContext.tsx:68 | the client always takes the value; storage takes a truthy value and is cleared otherwise |
| AuthContext.AuthProvider.Login | services/frontend/src/context/AuthContext.tsx:62-64 | navigates to the login endpoint; sessionStorage, the query and the fetch log stay as they were, and the provider's own state is outside what it may change |
| AuthContext.AuthProvider.Logout | services/frontend/src/context/AuthContext.tsx:65-67 | navigates to the logout endpoint; sessionStorage, the query and the fetch log stay as they were, and the provider's own state is outside what it may change |
| App.Route | services/frontend/src/App.tsx:75-89 | the embedded view is chosen only for `/embedded/` followed by one non-empty segment, and it shows that segment |
| App.NotFoundExactlyUnlisted | services/frontend/src/App.tsx:89 | Not found iff the path is neither listed nor an embedded path |
| App.RootRedirects | services/frontend/src/App.tsx:76 | `/` redirects to `/dashboard` |
| App.EmbeddedTakesOneSegment | services/frontend/src/App.tsx:88 | `/embedded/<s>` shows service `s`; a further segment is Not found |
| App.AppView | services/frontend/src/App.tsx:35-94 | a spinner iff loading; the sign-in screen iff not loading and no user; otherwise the shell with the routed page |
| App.ProtectedView | services/frontend/src/App.tsx:18-30 | checking while loading, a login prompt without a user, the children otherwise |
| App.GateAgreement | services/frontend/src/App.tsx:18-43 | the guard and the app make the same three-way decision |
| App.SignInUrl | services/frontend/src/App.tsx:56 | the start-login URL with `client_id=udo` and `redirect_uri=`, followed by exactly `EncodeUriComponent(origin)`, which adds no `&` or `#` |
| App.SignInOriginReadBack | services/frontend/src/App.tsx:56 | decoding the `redirect_uri` value yields exactly the origin; different origins give different targets |
| App.SignIn | services/frontend/src/App.tsx:54-57 | navigates to the sign-in URL for the page's origin; sessionStorage, the query and the fetch log stay as they were |
| Utils.FormatDuration | services/frontend/src/lib/utils.ts:17-23 | the rendering of the split of the seconds |
| Utils.SplitDuration | services/frontend/src/lib/utils.ts:17-23 | below 60 the seconds are kept; below 3600 they are split into minutes and seconds (below 60); above that into hours and minutes (below 60), dropping the seconds |
| Utils.FormatDurationInjectiveBelowHour | services/frontend/src/lib/utils.ts:18-19 | below an hour, different durations render differently |
| Utils.FormatDurationDropsSeconds | services/frontend/src/lib/utils.ts:20-22 | 3600 and 3659 seconds both render `1h 0m` |
| Utils.GetStatusColor | services/frontend/src/lib/utils.ts:25-41 | always one of the four class strings: green for success/completed/healthy, yellow for running/pending, red for failed/error/unhealthy, gray otherwise, matched after lower-casing |
| Utils.StatusColorCaseInsensitive | services/frontend/src/lib/utils.ts:26 | the colour of a status equals the colour of its lower-cased form |
| Utils.StatusColorUpperCase | services/frontend/src/lib/utils.ts:26-37 | `FAILED` is red |
| Text.Lower | services/frontend/src/lib/utils.ts:26 | lower-casing leaves no ASCII capital and never shortens a string |
| Text.LowerIdempotent | services/frontend/src/lib/utils.ts:26 | lower-casing twice is lower-casing once |
| DataSources.UpdateWhere | services/frontend/src/routes/DataSources.tsx:112-116 | same length and order; matching records are updated, the others are kept |
| DataSources.MarkSyncingEffect | services/frontend/src/routes/DataSources.tsx:111-117 | matching records become syncing with `currently syncing`; every other field, and every other record, is unchanged |
| DataSources.MarkSyncedEffect | services/frontend/src/routes/DataSources.tsx:120-128 | matching records become active with `just now`, whatever their status was |
| DataSources.PauseDuringSyncIsOverridden | services/frontend/src/routes/DataSources.tsx:110-143 | a record paused while syncing is active again when the sync completes |
| DataSources.UnknownIdUnchanged | services/frontend/src/routes/DataSources.tsx:110-143 | an id no record has leaves the list unchanged under every handler |
| DataSources.ToggleEffect | services/frontend/src/routes/DataSources.tsx:131-143 | active becomes inactive and `paused`; any other status becomes active and `in 6 hours`; `lastSync` is kept |
| DataSources.ToggleTwice | services/frontend/src/routes/DataSources.tsx:135-139 | toggling twice restores active or inactive; error or syncing ends up inactive |
| DataSources.ActiveCount | services/frontend/src/routes/DataSources.tsx:177 | at most the list length; zero iff no record is active; the length iff all are |
| DataSources.ActiveCountAppend | services/frontend/src/routes/DataSources.tsx:215 | the active count is additive over concatenation |
| DataSources.SyncStepsAndActiveCount | services/frontend/src/routes/DataSources.tsx:110-128 | starting a sync never raises the active count, and completing one never lowers it |
| DataSources.TotalRecordsAppend | services/frontend/src/routes/DataSources.tsx:189 | the record total is additive over concatenation |
| DataSources.HandlersKeepTotalRecords | services/frontend/src/routes/DataSources.tsx:110-143 | no handler changes the record total |
| DataSources.GetStatusBadge | services/frontend/src/routes/DataSources.tsx:82-95 | the four known statuses get their badges; anything else gets a secondary `Unknown` badge |
| DataSources.BadgeUnknownIffNoStatus | services/frontend/src/routes/DataSources.tsx:82-95 | the badge is `Unknown` iff the string names no status |
| Storage.FilteredMembership | services/frontend/src/routes/Storage.tsx:125-129 | an object is shown iff it is stored, passes the selection (none, empty, or its bucket), and passes the query (empty, or the lower-cased name contains the lower-cased query) |
| Storage.FilteredIsSubsequence | services/frontend/src/routes/Storage.tsx:125-129 | the shown objects are an order-preserving subsequence of the stored ones |
| Storage.NoFiltersKeepAll | services/frontend/src/routes/Storage.tsx:126-128 | no selection and an empty query show every object, in order |
| Storage.SelectionNarrows | services/frontend/src/routes/Storage.tsx:126 | selecting a bucket never adds to what no selection shows |
| Storage.QueryNarrows | services/frontend/src/routes/Storage.tsx:128 | typing a query never adds to what an empty query shows |
| Storage.ToggleSelection | services/frontend/src/routes/Storage.tsx:226 | clicking the selected bucket clears the selection; clicking any other bucket selects it |
| Storage.ToggleTwice | services/frontend/src/routes/Storage.tsx:226 | two clicks restore no selection or the same bucket; a different earlier selection is lost |
| Storage.TotalObjectsAppend | services/frontend/src/routes/Storage.tsx:123 | the object total is additive over concatenation |
| Storage.TotalObjectsBounds | services/frontend/src/routes/Storage.tsx:123 | each bucket's count is at most the total |
| Storage.PublicCount | services/frontend/src/routes/Storage.tsx:193 | at most the number of buckets; zero iff every bucket is private; the number of buckets iff every bucket is public |
| Storage.PublicCountAppend | services/frontend/src/routes/Storage.tsx:193 | the count is additive over concatenation, so each public bucket is counted once |
| Storage.EmptyMessage | services/frontend/src/routes/Storage.tsx:318-321 | `No objects match your search` iff the query is non-empty, `No objects found` otherwise |
| Storage.EmptyWithoutQuery | services/frontend/src/routes/Storage.tsx:318-321 | an empty list under an empty query means no stored object passes the selection |
| MetadataTable.Tables | services/frontend/src/components/MetadataTable.tsx:8 | the rows of the body, or none when the body or its `data` is missing |
| MetadataTable.RequestPathOffset | services/frontend/src/components/MetadataTable.tsx:7 | page `p` asks for 25 rows at offset `(p-1)*25` |
| MetadataTable.NoDataDisablesNext | services/frontend/src/components/MetadataTable.tsx:8-37 | without data, Next is disabled, and the No tables row shows iff not loading |
| MetadataTable.ReplayStaysPositive | services/frontend/src/components/MetadataTable.tsx:14-16 | starting at page 1 or above, any sequence of clicks stays at page 1 or above and moves one page per click at most |
| MetadataTable.ReplayNeedsFullPages | services/frontend/src/components/MetadataTable.tsx:16 | if no click saw a full page, the page never advances |
| MetadataTable.Pager.constructor | services/frontend/src/components/MetadataTable.tsx:6 | the page starts at 1 |
| MetadataTable.Pager.ClickPrev | services/frontend/src/components/MetadataTable.tsx:14 | disabled at page 1, otherwise one page back; the page stays at 1 or above |
| MetadataTable.Pager.ClickNext | services/frontend/src/components/MetadataTable.tsx:16 | disabled below 25 rows, otherwise one page forward |
| MetadataTable.Pager.Load | services/frontend/src/components/MetadataTable.tsx:7-8 | one fetch for the current page's path; the rows of the folded answer; sessionStorage, the query and the navigation target stay as they were |
| AiSqlPanel.ColumnKey | services/frontend/src/routes/AiSqlPanel.tsx:19 | `c` followed by the decimal position counted from 1 |
| AiSqlPanel.ColumnKeysDistinct | services/frontend/src/routes/AiSqlPanel.tsx:19-20 | different positions get different keys |
| AiSqlPanel.ColumnDefs | services/frontend/src/routes/AiSqlPanel.tsx:18-19 | one column `c1..cN` per cell of the first row |
| AiSqlPanel.RowObject | services/frontend/src/routes/AiSqlPanel.tsx:20 | key `c{j+1}` maps to cell `j`, for this row's own length, and there are no other keys |
| AiSqlPanel.RowObjectRoundTrip | services/frontend/src/routes/AiSqlPanel.tsx:20 | reading `c1..cN` back out of a row object gives the row |
| AiSqlPanel.RowObjectSize | services/frontend/src/routes/AiSqlPanel.tsx:20 | a row object has exactly one key per cell |
| AiSqlPanel.Convert | services/frontend/src/routes/AiSqlPanel.tsx:17-22 | missing or empty results give null columns and grid; otherwise the first row's columns, plus one row object per result row, in order |
| AiSqlPanel.RaggedRows | services/frontend/src/routes/AiSqlPanel.tsx:18-20 | a row shorter than the first lacks the trailing keys; cells beyond the first row's length get keys that no column names |
| AiSqlPanel.Panel.constructor | services/frontend/src/routes/AiSqlPanel.tsx:10-13 | the demo question, no grid, and empty SQL |
| AiSqlPanel.Panel.SetQuestion | services/frontend/src/routes/AiSqlPanel.tsx:32 | replaces the question only |
| AiSqlPanel.Panel.Run | services/frontend/src/routes/AiSqlPanel.tsx:14-25 | posts the question; on success installs the converted grid and the returned SQL; on failure changes nothing; sessionStorage, the query and the navigation target stay as they were |
| AirbyteToDuckdb.DelaySchedule | services/prefect/flows/airbyte_to_duckdb.py:53-70 | the delays are 5, 10, 20, 40, then 60 for ever, always between 5 and 60 |
| AirbyteToDuckdb.WaitedBounds | services/prefect/flows/airbyte_to_duckdb.py:64-65 | after k sleeps, `waited` is between 5k and 60k |
| AirbyteToDuckdb.WaitOutcome | services/prefect/flows/airbyte_to_duckdb.py:56-70 | a wait returns the last poll; without the timeout flag its status is terminal; with it the status is non-terminal and the budget is spent; every earlier poll was non-terminal and within budget |
| AirbyteToDuckdb.WaitPollBound | services/prefect/flows/airbyte_to_duckdb.py:55-70 | the wait polls once, or the polls after the first number fewer than `max_wait / 5`, because each sleep adds at least 5 seconds |
| AirbyteToDuckdb.ImmediateSuccess | services/prefect/flows/airbyte_to_duckdb.py:56-63 | a job already succeeded at the first poll is returned at once, even with a 5-second budget |
| AirbyteToDuckdb.WaitForJob | services/prefect/flows/airbyte_to_duckdb.py:47-70 | the loop returns what `WaitFrom` defines; the sleeps follow the delay schedule, one per non-terminal poll |
| AirbyteToDuckdb.TimeoutReportsLastStatus | services/prefect/flows/airbyte_to_duckdb.py:66-69 | a job that keeps running is returned as running, with the timeout flag |
| AirbyteToDuckdb.FirstFailure | services/prefect/flows/airbyte_to_duckdb.py:78-80 | every statement before the index succeeds, and the one at the index fails |
| AirbyteToDuckdb.RunSpecShape | services/prefect/flows/airbyte_to_duckdb.py:76-82 | connect, then a prefix of the statements in order, then close, which is always last once connected; success iff every statement succeeds |
| AirbyteToDuckdb.RunDuckdbSql | services/prefect/flows/airbyte_to_duckdb.py:74-83 | the loop's result and trace are those of `RunSpec` |
| AirbyteToDuckdb.StatementsToRun | services/prefect/flows/airbyte_to_duckdb.py:109-111 | a missing or empty list runs the single default statement |
| AirbyteToDuckdb.FlowStatusMeaning | services/prefect/flows/airbyte_to_duckdb.py:115-120 | the flow status is `success` iff the lower-cased job status is `succeeded` (or `success`), and otherwise is that lower-cased status |
| AirbyteToDuckdb.AirbyteToDuckdbFlow | services/prefect/flows/airbyte_to_duckdb.py:98-129 | exactly one metrics push, with the status or `error`; SQL runs only for a succeeded job; failures propagate after the `error` push |
| DataSyncFlow.WaitOutcome | services/prefect/flows/data_sync_flow.py:49-60 | the wait returns the first failed poll or the first exact terminal status, every earlier poll being a non-terminal reply; it keeps polling iff every poll is non-terminal |
| DataSyncFlow.CaseSensitiveUnlikeBackoffFlow | services/prefect/flows/data_sync_flow.py:57 | `FAILED` does not end this wait, though it ends the backoff flow's |
| DataSyncFlow.WaitForSyncCompletion | services/prefect/flows/data_sync_flow.py:44-60 | the loop returns what `WaitFrom` defines; it sleeps 10 seconds after each non-terminal reply and never after the poll that ends the wait, which is the poll at index `|sleeps|` |
| DataSyncFlow.ImportSpec | services/prefect/flows/data_sync_flow.py:63-71 | connect, execute the script once, close; a failing execute leaves the connection open |
| DataSyncFlow.RunGeValidation | services/prefect/flows/data_sync_flow.py:86-102 | never raises; success iff the checkpoint succeeded; an exception becomes a failed summary with its message |
| DataSyncFlow.LogStats | services/prefect/flows/data_sync_flow.py:135 | serialising the summary for the log can raise only for a checkpoint result, never for the summary of an exception |
| DataSyncFlow.DataSyncFlow | services/prefect/flows/data_sync_flow.py:105-147 | the step-by-step flow, including the `GE stats` log step that can raise, does what `FlowSpec` defines |
| DataSyncFlow.ReturnedStatus | services/prefect/flows/data_sync_flow.py:126-131 | a returned flow reports `success` iff the job status was exactly `succeeded`, and `failed` otherwise |
| DataSyncFlow.ImportOnlyOnSuccess | services/prefect/flows/data_sync_flow.py:126-128 | database work happens only for a succeeded job; a successful flow connected, executed the script once, and closed |
| DataSyncFlow.ValidationRunsEitherWay | services/prefect/flows/data_sync_flow.py:133-141 | the checkpoint also runs after a failed sync; its summary is returned when logging it and the push succeed; when logging it raises, the flow raises after pushing only `error` |
| DataSyncFlow.MetricsPushes | services/prefect/flows/data_sync_flow.py:137-147 | a returned flow pushed once, with its status; a raised one pushed once or twice, the last push being `error`; a wait still polling pushed nothing |
| AiSql.HandleAiSql | services/fastapi/app/ai_sql.py:18-39 | an unsupported question gets 400 before any connection; a supported one gets the fixed SQL and its rows iff every database step succeeds; the table is created only when absent and the CSV exists; once connected, `show tables` is the second operation; every later failure is a 500 whose detail is `DuckDB error: ` followed by that failure's own message (the listing error, the missing-CSV exception, the CREATE error or the query error) |
| AiSql.SupportedAnywhere | services/fastapi/app/ai_sql.py:20-21 | `top` and `roi` are found anywhere, in either order |
| AiSql.DemoQuestionSupported | services/fastapi/app/ai_sql.py:20-21 | the panel's default question `Top 5 products by ROI` is supported |

## Left out

- Real I/O is left out: fetch, sessionStorage, history, Airbyte HTTP, DuckDB, Great Expectations and the Prometheus gateway. Each answer is a parameter, and each effect is recorded as data.
- Timing is left out: `setTimeout`, `asyncio.sleep` and `time.time()` durations. Sleeps are recorded as the seconds asked for, and durations are not modelled.
- React scheduling is left out: effects, StrictMode double mounting, interleaved async work, and `useQuery` caching and loading flags. Handlers are modelled as transitions of the state they set.
- Floating point is left out: `formatBytes`, byte sizes, the `/1000000` record total and the storage percentages. Sizes are dropped from the records.
- Utils.FormatDuration: takes whole seconds. A JavaScript number with a fraction (which would render e.g. `1m 30.5s`) is not modelled.
- Text.Lower: only the ASCII letters, U+0130 and U+212A are mapped. Every other character is kept. Matching against ASCII keywords is therefore exact, but the storage search between two non-ASCII strings is not modelled exactly.
- JSON is not serialised. The AI SQL body is the question itself, not `{"q": ...}`. The profile and the token reply are typed records, and a non-string `access_token` is not modelled.
- `Web.Browser`: the request headers are a map rather than a Headers object. URL re-serialisation by `new URL(...).toString()` is not modelled beyond the query parameters.
- App.Route: React Router's case-insensitive matching and trailing-slash tolerance are not modelled. Routes match exactly.
- DataSyncFlow.WaitOutcome: the Airbyte polls are a finite script, and running out of it stands for the unbounded loop still polling.
- MetadataTable: the cell text of each row is not modelled (`t.name?.fullyQualifiedName || ...`), nor the error line.
- `cn`, PipelineBuilder, Dashboard, EmbeddedView, MetadataPage, the navigation chrome, the instrumentation middleware and both backend `main.py` files are not part of this model.
