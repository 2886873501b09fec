# A Dafny model of the Quip API client (`QuipService`)

This project models the decision logic of `QuipService`, the client that the
Quip export tool uses to talk to the Quip platform REST API, and proves
properties of that model. The client is modelled as a deterministic state
machine:

- an immutable `Client` record holds the access token, the base URL, the
  rate-limit fields (`rateLimitLimit`, `rateLimitRemaining`,
  `rateLimitResetMs`), the per-URL retry registry (`queriesRetry`), the
  spacing `waitingMs`, the `delayCalls` flag and the `stats` counters;
- every operation is a pure function from a client, its arguments and a
  scripted network to a `Run`: the new client, the result, the trace of what
  happened on the wire (`Sent(request)`) and in time (`Waited(duration)`),
  and the index of the next exchange the network will hand out;
- the network is a finite script of exchanges (`Threw` for a rejected
  `fetch`, or `Answered(response, now)` with the status, the three
  rate-limit headers, the body, and the clock reading the client takes if it
  backs off). A request past the end of the script meets `Threw`.

Modules, leaf to root:

| file | module | models |
|---|---|---|
| values.dfy | `Values` | `undefined` as `Option`, JSON values and blobs, JavaScript truthiness, template rendering of a field, durations (with JavaScript's `Infinity`) |
| http.dfy | `Http` | requests, responses, `res.ok`, the scripted network, traces and the shape of a retry trace |
| spacing.dfy | `Spacing` | `_calculateWaitingInMs` |
| retry_registry.dfy | `RetryRegistry` | `_httpCallRetryable` and the ceiling `TIMES_LIMIT_RETRY` |
| stats.dfy | `Stats` | the `stats` counters |
| client_state.dfy | `ClientState` | the constructor, `setWaitingMs`, `setForceDelay`, `_extractHeaders` with the header assignments, `_getOptions` |
| dispatch.dfy | `Dispatch` | `_apiCall`, `_apiCallInDelay`, `_executeApiCall`, `_handleApiCallResponse`, `_handleApiCallResponseError`, `_httpCodeRetryable` |
| export.dfy | `Export` | `createExportPdfRequest`, `retrieveExportPdfResponse`, `download`, `exportToPDF` |
| facade.dfy | `Facade` | `getUser` … `getXlsx` and `checkUser` |
| scenarios.dfy | `Scenarios` | concrete runs against small scripted servers |

The model follows the code as written. In four places the code does
something easy to miss, and the model keeps it:

- A transport failure inside `_executeApiCall` is caught, logged and turned
  into `undefined`. It is not retried. Only `download` retries transport
  failures.
- `download` starts `this._delay(...)` but does not await it. Its retries
  therefore follow each failure immediately, and its trace has no waits.
- A retryable status (500, 503, 504, 429) whose body is not JSON never
  reaches the registry. The `await res.json()` inside the log message at
  line 240 rejects, and `_executeApiCall`'s catch turns the rejection into
  `undefined`.
- A spacing denominator of zero (a limit below 4 a minute) is not rejected.
  JavaScript divides by zero and yields `Infinity`, written `Infinite`. A
  negative limit yields a negative spacing. Node.js timers treat either as
  a 1 ms delay, so such a limit spaces calls almost not at all.

## Model

| member | source | states |
|---|---|---|
| Values.Truthy | lib/QuipService.js:164 | a blob and every JSON object are truthy; a JSON string is truthy iff it is non-empty |
| Values.Render | lib/QuipService.js:166 | a template literal renders a missing member as the text `undefined`, a string as itself and an object as `[object Object]` |
| Values.Duration.TimerMs | lib/QuipService.js:205-209 | the delay `setTimeout` applies is the requested one when it lies within 1 to 2147483647 ms, and 1 ms otherwise (including `Infinity` and negative requests) |
| Spacing.WaitingMs | lib/QuipService.js:308-310 | for a limit r >= 4 the spacing is positive and equals 60000 / floor(r/4) ms; for 0 <= r < 4 it is `Infinity`; for r < 0 it is negative |
| Spacing.WaitingMsOrDefault | lib/QuipService.js:308 | an `undefined` limit takes the default parameter of 50 a minute and gives 5000 ms; a given limit gives its own spacing |
| Spacing.DefaultSpacing | lib/QuipService.js:308-310 | the default limit of 50 a minute gives 5000 ms, 100 a minute gives 2400 ms, and a fractional 7.5 a minute floors to one slot and gives 60000 ms |
| Spacing.TinyLimitBarelyWaits | lib/QuipService.js:205-209 | a limit below 4 a minute makes `_delay` wait 1 ms, whatever spacing the formula asked for |
| Spacing.SpacingNonIncreasing | lib/QuipService.js:308-310 | a higher limit (both at least 4) never gives a longer spacing |
| RetryRegistry.Query | lib/QuipService.js:284-296 | a query raises that URL's count by exactly one and leaves every other URL's count alone; it answers "retry" exactly when budget was left, and then uses up one unit of it |
| RetryRegistry.QueryTimesAnswers | lib/QuipService.js:284-296 | after n queries for a URL its count has grown by n and no other URL has moved; the i-th query answers "retry" iff fewer than 10 queries came before it |
| RetryRegistry.FreshUrlRetriesTenTimes | lib/QuipService.js:284-296 | for a URL never queried, queries 1 to 10 answer "retry", and query 11 and every later one answer "give up" |
| RetryRegistry.GivingUpIsPermanent | lib/QuipService.js:284-296 | once a query has answered "give up", every later query for that URL does too |
| Stats.Initial | lib/QuipService.js:27-40 | every counter starts at zero |
| Stats.Counters.Bump | lib/QuipService.js:67-121 | `this.stats.<name>++` raises exactly that counter by one and leaves every other counter alone |
| ClientState.New | lib/QuipService.js:20-44 | a new client keeps the access token it was given and the base URL it was given, or `https://platform.quip.com:443/1` when the URL is `undefined`; has remaining == limit == 50, the reset at the construction time, delay mode off, an empty registry, all counters zero and a 5000 ms spacing |
| ClientState.ApiRequestParts | lib/QuipService.js:219 | an API request goes to the base URL followed by the path, with the verb asked for and `Bearer <token>` as authorization, and both the path and the token can be read back from it |
| ClientState.Client.RecordHeaders | lib/QuipService.js:312-318 | the three rate-limit fields are overwritten from the response headers, the reset converted from seconds to milliseconds, and nothing else changes |
| ClientState.SetWaitingMs | lib/QuipService.js:50-52 | only the spacing changes, to the spacing of the given limit, or to the 5000 ms default when the limit is `undefined` |
| ClientState.SetForceDelay | lib/QuipService.js:54-56 | delay mode is on afterwards and nothing else changes |
| Dispatch.RetryableCode | lib/QuipService.js:280-282 | `_httpCodeRetryable` holds exactly for the statuses 500, 503, 504 and 429 of `HTTP_RETRY_CODES` |
| Dispatch.Delays | lib/QuipService.js:191-198 | `_apiCall` goes through `_apiCallInDelay` whenever the remaining quota is at most 0, and otherwise exactly when delay mode is on |
| Dispatch.Classify | lib/QuipService.js:230-255 | a response is delivered iff it is `ok`; it is backed off from iff its status is 500, 503, 504 or 429 and its body is JSON; otherwise the call gives up |
| Dispatch.RetryWait | lib/QuipService.js:233-238 | the backoff wait is the spacing plus whatever is left until the recorded reset, so it is never shorter than the spacing and equals it once the reset has passed |
| Dispatch.Settle | lib/QuipService.js:216-278 | a call that ends at one exchange sends one request, records the headers of any response, returns the body only of an `ok` response, queries the registry only on a backoff, and leaves the counters and the configuration alone |
| Dispatch.Execute | lib/QuipService.js:216-228 | every request of a call is the same request; each resend follows one wait of at least the spacing; there are at most as many resends as the registry allows for the path; each request consumes one exchange |
| Dispatch.ReadBody | lib/QuipService.js:273-277 | an `ok` body is read as a blob for a binary call, and otherwise as JSON, which resolves iff the body is JSON and then to that JSON |
| Dispatch.ExecuteResult | lib/QuipService.js:257-278 | a result is present only if the last exchange was an `ok` response, and then it is that response's body read as JSON or as a blob |
| Dispatch.ExecuteLastHeaders | lib/QuipService.js:261-265 | the rate-limit fields end as the last response announced them (reset in ms); a call that ends on a backoff response ends only when the registry count for the path has passed the ceiling of 10 |
| Dispatch.ExecuteFrame | lib/QuipService.js:241-245 | retries go through `_apiCallInDelay`: they change no counter and no configuration, never lower a registry count, and touch no other URL's entry |
| Dispatch.ExecuteFirstExchange | lib/QuipService.js:216-277 | an `ok` response ends the call after one request with its body read as a blob or as JSON, for binary and non-binary calls and whatever the body; a transport failure ends the call with one request and no state change; a failing status outside the retry codes (404, say) is never retried and leaves the registry alone; a backoff is followed by a resend iff the registry has budget |
| Dispatch.ExecuteExhaustsBudget | lib/QuipService.js:241-248 | against a server that keeps answering with a retryable status, the call resends exactly as often as the registry allows, returns nothing, and queries the registry once more than it resends |
| Dispatch.BackoffUsesFreshHeaders | lib/QuipService.js:230-238 | the wait before a retry is computed from the reset that the backed-off response itself announced, since the headers are recorded before the retry decision |
| Dispatch.ApiCall | lib/QuipService.js:188-203 | `_apiCall` counts exactly one query; it waits the spacing before the first request iff the remaining quota is at most 0 or delay mode is on; the result and the frame are those of the execution |
| Dispatch.ApiCallRetries | lib/QuipService.js:188-214 | after the optional spacing, a call is a retry trace of its one request, with at most as many resends as the registry allows |
| Dispatch.ApiCallSendsOnly | lib/QuipService.js:216-219 | a call sends its request to the base URL plus the path with the bearer token, at least once, and sends nothing else |
| Dispatch.ApiCallLastHeaders | lib/QuipService.js:261-265 | after `_apiCall` the rate-limit fields hold what the last response announced |
| Export.DecideFirstSettled | lib/QuipService.js:130-143 | the poller waits as long as every poll is `PROCESSING`; otherwise the first poll that is not `PROCESSING` decides, yielding its job iff its status is `SUCCESS` or `PARTIAL_SUCCESS` and failure otherwise (including an `undefined` poll) |
| Export.CreatePath | lib/QuipService.js:124 | the create path is `/threads/`, the thread id verbatim, then `/export/pdf/async` |
| Export.PollPath | lib/QuipService.js:128 | the status path is the create path followed by `?request_id=` and the request id verbatim |
| Export.RetrieveExport | lib/QuipService.js:127-144 | polling makes at most `fuel` status requests, at least one when it may; every poll but the last was `PROCESSING`; running out of fuel means every allowed poll was made; each poll counts one query and nothing else |
| Export.RetrieveExportObserves | lib/QuipService.js:127-136 | the polls reported are the results of consecutive `_apiCall`s on the status path, each starting from the client and exchange the previous one left |
| Export.RetrieveExportDecides | lib/QuipService.js:130-143 | the poller's outcome is the decision over the polls it actually made |
| Export.RetrieveExportSendsOnly | lib/QuipService.js:128 | every request polling sends is a GET of the status path with the caller's base URL and token |
| Export.Download | lib/QuipService.js:146-159 | `download` sends the same GET to the absolute URL one to budget+1 times with no wait between attempts; an answered fetch of any status ends the download, so every attempt before the last met a transport failure; it returns the response iff the last attempt was answered; it gives up only when the registry (keyed by that URL) is exhausted; no counter and no rate-limit field changes |
| Export.RequestId | lib/QuipService.js:166 | the request id polled is the `request_id` string of the job handle, or the text `undefined` when the member is missing |
| Export.PdfUrl | lib/QuipService.js:170 | the URL downloaded is the job's `pdf_url` string, or the text `undefined` when the member is missing |
| Export.CreateExportPdfRequest | lib/QuipService.js:123-125 | creating an export job is one POST to `/threads/<id>/export/pdf/async` through `_apiCall`; it counts one query and bumps no per-method counter |
| Export.DownloadPdf | lib/QuipService.js:170-173 | a PDF is produced iff the download of the job's `pdf_url` resolved to an `ok` response, and it is that response's blob |
| Export.ExportAfterPoll | lib/QuipService.js:166-174 | the export is unfinished iff polling has not decided; a failed poll exports nothing and sends nothing more; a settled success downloads the job's `pdf_url` once through `download`, and the export is that download's outcome |
| Export.ExportAfterCreate | lib/QuipService.js:164-177 | a falsy or `undefined` job handle ends the export with nothing and no further request; with a truthy handle, only a poll that settled on success exports, and then the result is the download of that job's `pdf_url` (a PDF iff it answered `ok`, and its blob); the stage bumps only the query counter |
| Export.ExportToPdf | lib/QuipService.js:161-178 | a PDF returned by `exportToPDF` is the blob of the last exchange, which was an `ok` response; the export counts at least one query, bumps no per-method counter, and never resets a registry count (that the PDF comes from the download is stated by `ExportToPdfOutcome`) |
| Export.ExportToPdfOutcome | lib/QuipService.js:161-178 | the export yields a PDF iff the create call resolved truthy, polling settled on success, and the download of that job's `pdf_url` answered `ok`, and then it is the downloaded blob; a falsy handle or a failed poll yields nothing; the trace is the create call's, then the polls', then the download's |
| Export.ExportDownloadGate | lib/QuipService.js:161-178 | nothing is downloaded unless the create call returned a truthy value and polling settled on success; then every download request goes to that job's `pdf_url` with the bearer token |
| Facade.CountersPerMethod | lib/QuipService.js:67-121 | each public read method has a counter of its own, and none of them is `query_count` |
| Facade.Path | lib/QuipService.js:67-121 | every read requests a path starting with `/` under the base URL; `getCurrentUser` requests `/users/current`, the URL `checkUser` also fetches |
| Facade.PathReadBack | lib/QuipService.js:67-121 | every read's path is a fixed prefix (`/threads/`, `/blob/`, `/users/`, …), the method's argument verbatim, and a fixed suffix (the blob id, `/export/pdf`, …), each of which can be read back from the path |
| Facade.Invoke | lib/QuipService.js:67-121 | a read bumps its own counter and `query_count` by one each and no other counter; a result is present only from an `ok` response and is a blob exactly for `getBlob`, `getPdf`, `getDocx` and `getXlsx` |
| Facade.InvokeSendsOnly | lib/QuipService.js:67-121 | each read sends a GET to the base URL plus its fixed path (e.g. `/threads/<id>` for `getThread`) and no other request |
| Facade.InvokeLastHeaders | lib/QuipService.js:261-265 | after a read the rate-limit fields hold what its last response announced |
| Facade.QuotaGatesNextCall | lib/QuipService.js:188-203 | the next read waits the spacing before its first request iff the previous read's last response announced no remaining quota or delay mode is on |
| Facade.CheckUser | lib/QuipService.js:58-65 | `checkUser` bumps only `getCurrentUser_count`, sends one GET to `/users/current` outside `_apiCall` (no wait, no retry, no header recording), rejects on a transport failure and answers `res.ok` otherwise |
| Facade.CheckUserIsNotAQuery | lib/QuipService.js:58-75 | `checkUser` and `getCurrentUser` bump the same counter and request the same URL, but only `getCurrentUser` counts as a query |
| Scenarios.FirstGetThread | lib/QuipService.js:82-85 | a new client's `getThread("abc")` against a 200 JSON response sends one request to `https://platform.quip.com:443/1/threads/abc`, returns the JSON, counts one `getThread` and one query, and records the announced quota |
| Scenarios.ThreeBackoffsThenOk | lib/QuipService.js:230-247 | three backoff responses and then an `ok` one give four identical requests with one spacing wait before each resend, the fourth body as the result, and a registry count of 3 |
| Scenarios.BlobAfterThreeServerErrors | lib/QuipService.js:102-106 | a new client's `getBlob` meeting a 500 with a JSON body three times and then 200 returns the blob after exactly three 5-second waits |
| Scenarios.ThrottledForever | lib/QuipService.js:284-296 | against a server that answers 429 with a JSON body to everything, a read on a fresh URL makes 11 requests and returns nothing, leaving a count of 11 |
| Scenarios.ProcessingTwiceThenSuccess | lib/QuipService.js:127-140 | answers `PROCESSING`, `PROCESSING`, `SUCCESS` give three identical status requests and settle on the third answer's job |
| Scenarios.ExportAfterTwoBusyPolls | lib/QuipService.js:161-178 | an export whose status answers are `PROCESSING`, `PROCESSING`, `SUCCESS` sends one create POST, three status GETs and exactly one download, to the third answer's `pdf_url`, and returns the downloaded blob |
| Scenarios.PollerExamples | lib/QuipService.js:127-144 | polls `[PROCESSING, PROCESSING, SUCCESS]` yield the third job; `[PROCESSING, QUEUED, …]` and `[PROCESSING, undefined]` fail; `[PROCESSING, PROCESSING]` has not decided |

## Left out

- Logging (`console.log`, `setLogger` and the logger adapter) has no effect on the state and is not modelled.
- `fetch` (node-fetch), `setTimeout` and `Date.now()` are not called. Responses and clock readings come from the scripted network, and a sleep is the `Waited` event it would have caused.
- `utils.normalizeInteger` is assumed to return the integer value of its header, so the three rate-limit headers are taken as already-parsed integers. The `lib/common/utils.js` at hand defines no `normalizeInteger`; with it, line 314 throws a `TypeError` on every response, `_executeApiCall` catches it, and every API call resolves to `undefined`. That path is deliberately not modelled.
- Body decoding (`res.json()`, `res.blob()`) is opaque: a body is either JSON or not, and it always has a blob.
- The `Content-Type` header and the empty `options` object passed by `createExportPdfRequest` do not influence any decision and are not part of `Request`.
- Floating-point rounding in `_calculateWaitingInMs` is not modelled: the limit and the spacing are exact reals, not IEEE doubles.
- Spacing.WaitingMs: a `NaN` limit (say `setWaitingMs("abc")`) is not modelled; JavaScript would yield a `NaN` spacing, which `setTimeout` treats as 1 ms. An `undefined` limit is modelled and selects the default of 50.
- A `Waited(d)` event records the delay passed to `setTimeout`, as the client computes it. Node.js clamps a delay of `Infinity`, below 1 ms or above 2147483647 ms to 1 ms; `Duration.TimerMs` states that clamp, and the traces keep the requested value.
- Export.RetrieveExport: the source polls without bound or delay while the job is `PROCESSING`; the model allows at most `fuel` polls and reports `Unfinished` when they run out.
- The network script is finite. A request past its end meets a transport failure, which a test server that stops answering would also produce.
- Asynchronous scheduling and concurrency are not modelled. The client awaits every step in order, so the model is a sequence of pure steps.
- `lib/common/utils.js` (file system, version check, console boxes) and `lib/cli/options.js` (a static option table) are not part of this model.
