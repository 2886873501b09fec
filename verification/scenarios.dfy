/** Concrete runs of the client against small scripted servers. */
module Scenarios {
  import opened Values
  import opened Http
  import opened RetryRegistry
  import opened Stats
  import opened ClientState
  import opened Dispatch
  import opened Export
  import opened Facade

  /** A response with a JSON body, announcing `remaining` requests left in
      the window and no pending reset. */
  function JsonResponse(status: int, remaining: int, j: Json): Response
  {
    Response(status, 50, remaining, 0, Body(Some(j), Blob([])))
  }

  /** A fresh client's first `getThread` on a 200 response: one request to
      the thread's URL with the bearer token, the JSON body as the result,
      one `getThread` and one query counted, and the announced quota
      recorded. */
  lemma FirstGetThread(token: string, now: int, j: Json)
    ensures var c := New(token, None, now);
            var r := Invoke(c, GetThread("abc"), [Answered(JsonResponse(200, 49, j), now)], 0);
            && r.result == Some(JsonValue(j))
            && r.trace == [Sent(Request("https://platform.quip.com:443/1/threads/abc", Get, "Bearer " + token))]
            && r.client.stats.getThread == 1
            && r.client.stats.queryCount == 1
            && r.client.rateLimitRemaining == 49
  {
    var c := New(token, None, now);
    var net := [Answered(JsonResponse(200, 49, j), now)];
    var path := "/threads/abc";
    var c0 := c.(stats := c.stats.Bump(GetThreadCount));
    var q0 := c0.(stats := c0.stats.(queryCount := c0.stats.queryCount + 1));
    assert !Delays(c0);
    var e := Execute(q0, path, Get, false, net, 0);
    assert e == Settle(q0, path, q0.ApiRequest(path, Get), net[0], false, 0);
    assert Path(GetThread("abc")) == path;
    ApiCallExecutes(c0, path, Get, false, net, 0);
    InvokeCallsApi(c, GetThread("abc"), net, 0);
    ThreadUrl();
  }

  /** The thread URL of the scenario above, spelled out. */
  lemma ThreadUrl()
    ensures DefaultApiUrl + "/threads/abc" == "https://platform.quip.com:443/1/threads/abc"
  {
  }

  /** Three backoff responses followed by a `res.ok` one: the request goes
      out four times, each resend after a wait of exactly the spacing (the
      announced reset has passed), the fourth response's body is the
      result, and the registry holds the three backoffs. */
  lemma ThreeBackoffsThenOk(q: Client, path: string, binary: bool, fail: Response, ok: Response, now: int)
    requires Count(q.retries, path) == 0
    requires Classify(fail) == Backoff && fail.resetHeader * 1000 <= now
    requires Ok(ok.status)
    ensures var net := [Answered(fail, now), Answered(fail, now), Answered(fail, now), Answered(ok, now)];
            var e := Execute(q, path, Get, binary, net, 0);
            var req := q.ApiRequest(path, Get);
            var w := Waited(q.waitingMs);
            && e.result == ReadBody(ok.body, binary)
            && e.trace == [Sent(req), w, Sent(req), w, Sent(req), w, Sent(req)]
            && Count(e.client.retries, path) == 3
  {
    var net := [Answered(fail, now), Answered(fail, now), Answered(fail, now), Answered(ok, now)];
    var req := q.ApiRequest(path, Get);
    var w := Waited(q.waitingMs);
    var q1 := AfterBackoff(q, fail, path);
    var q2 := AfterBackoff(q1, fail, path);
    var q3 := AfterBackoff(q2, fail, path);
    assert Count(q1.retries, path) == 1 && Count(q2.retries, path) == 2 && Count(q3.retries, path) == 3;
    assert q1.ApiRequest(path, Get) == q2.ApiRequest(path, Get) == q3.ApiRequest(path, Get) == req;
    assert q1.waitingMs == q2.waitingMs == q.waitingMs;
    var e3 := Execute(q3, path, Get, binary, net, 3);
    assert e3 == Settle(q3, path, req, net[3], binary, 3);
    ExecuteRetryStep(q2, path, Get, binary, net, 2);
    var e2 := Execute(q2, path, Get, binary, net, 2);
    assert e2.trace == [Sent(req), w, Sent(req)];
    ExecuteRetryStep(q1, path, Get, binary, net, 1);
    var e1 := Execute(q1, path, Get, binary, net, 1);
    assert e1.trace == [Sent(req), w, Sent(req), w, Sent(req)];
    ExecuteRetryStep(q, path, Get, binary, net, 0);
  }

  /** The blob URL of the scenario below, spelled out. */
  lemma BlobUrl()
    ensures DefaultApiUrl + "/blob/t/b" == "https://platform.quip.com:443/1/blob/t/b"
  {
  }

  /** A fresh client's `getBlob` whose first three requests meet a 500 is
      fetched on the fourth: the same request goes out four times with a
      wait of 5 seconds (the default spacing) before each resend, and the
      registry remembers the three backoffs. */
  lemma BlobAfterThreeServerErrors(token: string, now: int, err: Json, pdf: Blob)
    requires now >= 0
    ensures var c := New(token, None, now);
            var fail := Answered(JsonResponse(500, 40, err), now);
            var ok := Answered(Response(200, 50, 40, 0, Body(None, pdf)), now);
            var r := Invoke(c, GetBlob("t", "b"), [fail, fail, fail, ok], 0);
            var req := Request("https://platform.quip.com:443/1/blob/t/b", Get, "Bearer " + token);
            && r.result == Some(BlobValue(pdf))
            && r.trace == [Sent(req), Waited(Ms(5000.0)), Sent(req), Waited(Ms(5000.0)),
                           Sent(req), Waited(Ms(5000.0)), Sent(req)]
            && Count(r.client.retries, "/blob/t/b") == 3
  {
    var c := New(token, None, now);
    var c0 := c.(stats := c.stats.Bump(GetBlobCount));
    var q0 := c0.(stats := c0.stats.(queryCount := c0.stats.queryCount + 1));
    assert !Delays(c0);
    assert Path(GetBlob("t", "b")) == "/blob/t/b";
    var fail := JsonResponse(500, 40, err);
    var ok := Response(200, 50, 40, 0, Body(None, pdf));
    var net := [Answered(fail, now), Answered(fail, now), Answered(fail, now), Answered(ok, now)];
    ThreeBackoffsThenOk(q0, "/blob/t/b", true, fail, ok, now);
    ApiCallExecutes(c0, "/blob/t/b", Get, true, net, 0);
    InvokeCallsApi(c, GetBlob("t", "b"), net, 0);
    BlobUrl();
  }

  /** Against a server that answers 429 to everything, a fresh client
      sends a request 11 times (the first attempt and 10 retries) before
      resolving to nothing. */
  lemma ThrottledForever(c: Client, call: Call, throttled: Response, now: int)
    requires Path(call) !in c.retries
    requires throttled.status == 429 && throttled.body.json.Some?
    ensures var net := seq(11, _ => Answered(throttled, now));
            var r := Invoke(c, call, net, 0);
            && r.result.None?
            && r.next == 11
            && Count(r.client.retries, Path(call)) == 11
  {
    var net := seq(11, _ => Answered(throttled, now));
    var c0 := c.(stats := c.stats.Bump(CounterOf(call)));
    var q0 := c0.(stats := c0.stats.(queryCount := c0.stats.queryCount + 1));
    assert Budget(q0.retries, Path(call)) == 10;
    assert Classify(throttled) == Backoff;
    assert forall i :: 0 <= i <= 10 ==> At(net, i) == Answered(throttled, now);
    ExecuteExhaustsBudget(q0, Path(call), Get, Binary(call), net, 0);
    var e := Execute(q0, Path(call), Get, Binary(call), net, 0);
    assert e.result.None? && e.next == 11 && Count(e.client.retries, Path(call)) == 11;
    ApiCallExecutes(c0, Path(call), Get, Binary(call), net, 0);
    InvokeCallsApi(c, call, net, 0);
  }

  /** A call that goes straight out and meets an `ok` JSON response: one
      request, the JSON as the result, one query counted and the headers
      recorded. */
  lemma OkJsonCall(c: Client, path: string, verb: Method, net: Network, k: nat)
    requires !Delays(c)
    requires At(net, k).Answered? && Ok(At(net, k).response.status) && At(net, k).response.body.json.Some?
    ensures var r := ApiCall(c, path, verb, false, net, k);
            var res := At(net, k).response;
            && r.result == Some(JsonValue(res.body.json.value))
            && r.trace == [Sent(c.ApiRequest(path, verb))]
            && r.next == k + 1
            && r.client == c.(stats := c.stats.(queryCount := c.stats.queryCount + 1)).RecordHeaders(res)
  {
    var c1 := c.(stats := c.stats.(queryCount := c.stats.queryCount + 1));
    ApiCallExecutes(c, path, verb, false, net, k);
    assert Execute(c1, path, verb, false, net, k) == Settle(c1, path, c1.ApiRequest(path, verb), At(net, k), false, k);
  }

  /** One status request answered `ok` with the JSON `j` by a server with
      quota left: it goes straight out, and `j` is the poll it reports. */
  lemma OkPoll(c: Client, threadId: string, rid: string, net: Network, k: nat, fuel: nat)
    requires !Delays(c)
    requires At(net, k).Answered? && Ok(At(net, k).response.status) && At(net, k).response.body.json.Some?
    requires At(net, k).response.remainingHeader > 0
    ensures var r := RetrieveExport(c, threadId, rid, net, k, fuel + 1);
            var res := At(net, k).response;
            var poll := Some(JsonValue(res.body.json.value));
            var c1 := c.(stats := c.stats.(queryCount := c.stats.queryCount + 1)).RecordHeaders(res);
            && !Delays(c1) && c1.ApiRequest(PollPath(threadId, rid), Get) == c.ApiRequest(PollPath(threadId, rid), Get)
            && (Processing(poll) ==>
                  var rest := RetrieveExport(c1, threadId, rid, net, k + 1, fuel);
                  && r.result.outcome == rest.result.outcome
                  && r.trace == [Sent(c.ApiRequest(PollPath(threadId, rid), Get))] + rest.trace
                  && r.client == rest.client && r.next == rest.next)
            && (!Processing(poll) ==>
                  && r.result.outcome == (if Succeeded(poll) then Ready(poll.value) else Failed)
                  && r.trace == [Sent(c.ApiRequest(PollPath(threadId, rid), Get))]
                  && r.client == c1 && r.next == k + 1)
  {
    OkJsonCall(c, PollPath(threadId, rid), Get, net, k);
    RetrieveExportStep(c, threadId, rid, net, k, fuel);
    RetrieveExportStepOutcome(c, threadId, rid, net, k, fuel);
    RetrieveExportStepTrace(c, threadId, rid, net, k, fuel);
  }

  /** A status request answered `ok` with a settled successful job ends
      polling on that job. */
  lemma SuccessPoll(c: Client, threadId: string, rid: string, done: Json, net: Network, k: nat, fuel: nat)
    requires !Delays(c)
    requires Succeeded(Some(JsonValue(done))) && !Processing(Some(JsonValue(done)))
    requires exists now :: At(net, k) == Answered(JsonResponse(200, 46, done), now)
    ensures var r := RetrieveExport(c, threadId, rid, net, k, fuel + 1);
            && r.result.outcome == Ready(JsonValue(done))
            && r.trace == [Sent(c.ApiRequest(PollPath(threadId, rid), Get))]
            && r.next == k + 1
            && r.client.accessToken == c.accessToken
  {
    OkPoll(c, threadId, rid, net, k, fuel);
  }

  /** A status request answered `ok` with `PROCESSING` is followed by the
      next one, sent straight away since quota remains. */
  lemma BusyPoll(c: Client, threadId: string, rid: string, busy: Json, remaining: int, net: Network, k: nat, fuel: nat)
    requires !Delays(c)
    requires Processing(Some(JsonValue(busy)))
    requires remaining > 0 && exists now :: At(net, k) == Answered(JsonResponse(200, remaining, busy), now)
    ensures var r := RetrieveExport(c, threadId, rid, net, k, fuel + 1);
            var c1 := c.(stats := c.stats.(queryCount := c.stats.queryCount + 1)).RecordHeaders(At(net, k).response);
            var rest := RetrieveExport(c1, threadId, rid, net, k + 1, fuel);
            && !Delays(c1)
            && c1.ApiRequest(PollPath(threadId, rid), Get) == c.ApiRequest(PollPath(threadId, rid), Get)
            && c1.accessToken == c.accessToken
            && r.result.outcome == rest.result.outcome
            && r.trace == [Sent(c.ApiRequest(PollPath(threadId, rid), Get))] + rest.trace
            && r.next == rest.next && r.client == rest.client
  {
    OkPoll(c, threadId, rid, net, k, fuel);
  }

  /** Polling that meets `PROCESSING` twice and then `SUCCESS` makes three
      identical status requests and settles on the third answer's job. */
  lemma ProcessingTwiceThenSuccess(c: Client, threadId: string, rid: string, busy: Json, done: Json,
                                   net: Network, now: int, fuel: nat)
    requires !Delays(c)
    requires Processing(Some(JsonValue(busy)))
    requires Succeeded(Some(JsonValue(done))) && !Processing(Some(JsonValue(done)))
    requires fuel >= 3
    requires At(net, 1) == Answered(JsonResponse(200, 48, busy), now)
    requires At(net, 2) == Answered(JsonResponse(200, 47, busy), now)
    requires At(net, 3) == Answered(JsonResponse(200, 46, done), now)
    ensures var r := RetrieveExport(c, threadId, rid, net, 1, fuel);
            var req := Sent(c.ApiRequest(PollPath(threadId, rid), Get));
            && r.result.outcome == Ready(JsonValue(done))
            && r.trace == [req, req, req]
            && r.next == 4
            && r.client.accessToken == c.accessToken
  {
    var req := Sent(c.ApiRequest(PollPath(threadId, rid), Get));
    var f: nat := fuel - 3;
    BusyPoll(c, threadId, rid, busy, 48, net, 1, f + 2);
    var c1 := c.(stats := c.stats.(queryCount := c.stats.queryCount + 1)).RecordHeaders(At(net, 1).response);
    BusyThenSuccess(c1, threadId, rid, busy, done, net, 2, f);
    assert [req] + [req, req] == [req, req, req];
  }

  /** A `PROCESSING` answer followed by a `SUCCESS` one: two identical
      status requests, settling on the second answer's job. */
  lemma BusyThenSuccess(c: Client, threadId: string, rid: string, busy: Json, done: Json,
                        net: Network, k: nat, fuel: nat)
    requires !Delays(c)
    requires Processing(Some(JsonValue(busy)))
    requires Succeeded(Some(JsonValue(done))) && !Processing(Some(JsonValue(done)))
    requires exists now :: At(net, k) == Answered(JsonResponse(200, 47, busy), now)
    requires exists now :: At(net, k + 1) == Answered(JsonResponse(200, 46, done), now)
    ensures var r := RetrieveExport(c, threadId, rid, net, k, fuel + 2);
            var req := Sent(c.ApiRequest(PollPath(threadId, rid), Get));
            && r.result.outcome == Ready(JsonValue(done))
            && r.trace == [req, req]
            && r.next == k + 2
            && r.client.accessToken == c.accessToken
  {
    BusyPoll(c, threadId, rid, busy, 47, net, k, fuel + 1);
    var c1 := c.(stats := c.stats.(queryCount := c.stats.queryCount + 1)).RecordHeaders(At(net, k).response);
    SuccessPoll(c1, threadId, rid, done, net, k + 1, fuel);
  }

  /** A whole `exportToPDF` against a server that accepts the job, reports
      it `PROCESSING` twice and then `SUCCESS`, and serves the PDF: one
      create request, three status requests, and exactly one download,
      sent to the `pdf_url` of the third status answer; the result is the
      downloaded blob. */
  lemma ExportAfterTwoBusyPolls(c: Client, threadId: string, rid: string, url: string,
                                created: Json, busy: Json, done: Json, pdf: Blob,
                                net: Network, now: int, fuel: nat)
    requires !Delays(c)
    requires Field(JsonValue(created), "request_id") == Some(JString(rid))
    requires Processing(Some(JsonValue(busy)))
    requires Succeeded(Some(JsonValue(done))) && !Processing(Some(JsonValue(done)))
    requires Field(JsonValue(done), "pdf_url") == Some(JString(url))
    requires fuel >= 3
    requires At(net, 0) == Answered(JsonResponse(200, 49, created), now)
    requires At(net, 1) == Answered(JsonResponse(200, 48, busy), now)
    requires At(net, 2) == Answered(JsonResponse(200, 47, busy), now)
    requires At(net, 3) == Answered(JsonResponse(200, 46, done), now)
    requires At(net, 4) == Answered(Response(200, 50, 45, 0, Body(None, pdf)), now)
    ensures var r := ExportToPdf(c, threadId, net, 0, fuel);
            var status := Sent(c.ApiRequest(PollPath(threadId, rid), Get));
            && r.result == Exported(pdf)
            && r.trace == [Sent(c.ApiRequest(CreatePath(threadId), Post)), status, status, status,
                           Sent(Request(url, Get, c.Bearer()))]
            && r.next == 5
  {
    var status := Sent(c.ApiRequest(PollPath(threadId, rid), Get));
    CreateAccepted(c, threadId, rid, created, net, now);
    var create := CreateExportPdfRequest(c, threadId, net, 0);
    var c0 := create.client;
    ProcessingTwiceThenSuccess(c0, threadId, rid, busy, done, net, now, fuel);
    var poll := RetrieveExport(c0, threadId, rid, net, 1, fuel);
    assert c0.ApiRequest(PollPath(threadId, rid), Get) == c.ApiRequest(PollPath(threadId, rid), Get);
    assert PdfUrl(JsonValue(done)) == url;
    var dl := Download(poll.client, url, net, 4);
    assert dl == Run(poll.client, Some(At(net, 4).response), [Sent(Request(url, Get, c.Bearer()))], 5);
    ExportToPdfOutcome(c, threadId, net, 0, fuel);
    assert create.trace + poll.trace + dl.trace
        == [Sent(c.ApiRequest(CreatePath(threadId), Post)), status, status, status, Sent(Request(url, Get, c.Bearer()))];
  }

  /** The create call of an export, answered `ok` with a job handle by a
      server with quota left: one request, and the handle's `request_id`
      is what polling will ask for. */
  lemma CreateAccepted(c: Client, threadId: string, rid: string, created: Json, net: Network, now: int)
    requires !Delays(c)
    requires Field(JsonValue(created), "request_id") == Some(JString(rid))
    requires At(net, 0) == Answered(JsonResponse(200, 49, created), now)
    ensures var create := CreateExportPdfRequest(c, threadId, net, 0);
            && create.result == Some(JsonValue(created)) && Truthy(create.result.value)
            && RequestId(create.result.value) == rid
            && create.trace == [Sent(c.ApiRequest(CreatePath(threadId), Post))]
            && create.next == 1
            && !Delays(create.client)
            && create.client.accessToken == c.accessToken && create.client.apiUrl == c.apiUrl
  {
    OkJsonCall(c, CreatePath(threadId), Post, net, 0);
    assert CreateExportPdfRequest(c, threadId, net, 0) == ApiCall(c, CreatePath(threadId), Post, false, net, 0);
  }

  /** The status poller: the first poll that is not `PROCESSING` decides,
      and an unknown status is a failure. */
  lemma PollerExamples(processing: Value, done: Value, odd: Value)
    requires Field(processing, "status") == Some(JString("PROCESSING")) && Truthy(processing)
    requires Field(done, "status") == Some(JString("SUCCESS")) && Truthy(done)
    requires Field(odd, "status") == Some(JString("QUEUED")) && Truthy(odd)
    ensures Decide([Some(processing), Some(processing), Some(done)]) == Ready(done)
    ensures Decide([Some(processing), Some(odd), Some(done)]) == Failed
    ensures Decide([Some(processing), None]) == Failed
    ensures Decide([Some(processing), Some(processing)]) == StillProcessing
  {
    DecideFirstSettled([Some(processing), Some(processing), Some(done)]);
    assert SettlesAt([Some(processing), Some(processing), Some(done)], 2);
    DecideFirstSettled([Some(processing), Some(odd), Some(done)]);
    assert SettlesAt([Some(processing), Some(odd), Some(done)], 1);
    DecideFirstSettled([Some(processing), None]);
    assert SettlesAt([Some(processing), None], 1);
    DecideFirstSettled([Some(processing), Some(processing)]);
  }
}
