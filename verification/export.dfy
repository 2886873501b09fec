/** The asynchronous PDF export: `createExportPdfRequest`,
    `retrieveExportPdfResponse`, `download` and `exportToPDF`. */
module Export {
  import opened Values
  import opened Http
  import opened RetryRegistry
  import opened Stats
  import opened ClientState
  import opened Dispatch

  /** A poll answered with a job whose `status` member is exactly `status`
      (JavaScript's `===` on strings). */
  predicate HasStatus(poll: Option<Value>, status: string)
  {
    poll.Some? && Truthy(poll.value) && Field(poll.value, "status") == Some(JString(status))
  }

  predicate Processing(poll: Option<Value>)
  {
    HasStatus(poll, "PROCESSING")
  }

  predicate Succeeded(poll: Option<Value>)
  {
    HasStatus(poll, "SUCCESS") || HasStatus(poll, "PARTIAL_SUCCESS")
  }

  datatype PollResult = Ready(job: Value) | Failed | StillProcessing

  /** Poll `i` is the first one that is not `PROCESSING`. */
  ghost predicate SettlesAt(polls: seq<Option<Value>>, i: int)
  {
    && 0 <= i < |polls|
    && !Processing(polls[i])
    && forall m :: 0 <= m < i ==> Processing(polls[m])
  }

  /** The poller's decision over a finite script of poll results (each the
      resolved value of one status request, `None` for `undefined`). */
  function Decide(polls: seq<Option<Value>>): PollResult
    decreases |polls|
  {
    if |polls| == 0 then StillProcessing
    else if Processing(polls[0]) then Decide(polls[1..])
    else if Succeeded(polls[0]) then Ready(polls[0].value) else Failed
  }

  /** The first poll that is not `PROCESSING` decides, and it yields its
      job exactly when its status is `SUCCESS` or `PARTIAL_SUCCESS`. A
      script that never leaves `PROCESSING` has not decided yet. */
  lemma {:induction false} DecideFirstSettled(polls: seq<Option<Value>>)
    ensures Decide(polls).StillProcessing? <==> forall m :: 0 <= m < |polls| ==> Processing(polls[m])
    ensures !Decide(polls).StillProcessing? ==> exists i :: SettlesAt(polls, i)
    ensures forall i :: SettlesAt(polls, i) ==>
              Decide(polls) == (if Succeeded(polls[i]) then Ready(polls[i].value) else Failed)
    decreases |polls|
  {
    if |polls| > 0 {
      if Processing(polls[0]) {
        DecideFirstSettled(polls[1..]);
        assert forall m :: 0 <= m < |polls| - 1 ==> polls[1..][m] == polls[m + 1];
        assert forall i :: SettlesAt(polls[1..], i) ==> SettlesAt(polls, i + 1);
        assert forall i :: SettlesAt(polls, i) ==> i > 0 && SettlesAt(polls[1..], i - 1);
      } else {
        assert SettlesAt(polls, 0);
      }
    }
  }

  /** The path of the request that creates an export job; the thread id
      sits verbatim between the fixed prefix and suffix. */
  function CreatePath(threadId: string): (p: string)
    ensures |p| == |threadId| + 26
    ensures p[..9] == "/threads/" && p[9..|p| - 17] == threadId && p[|p| - 17..] == "/export/pdf/async"
  {
    "/threads/" + threadId + "/export/pdf/async"
  }

  /** The status request's path: the create path with the job's request
      id as query string. */
  function PollPath(threadId: string, requestId: string): (p: string)
    ensures p == CreatePath(threadId) + "?request_id=" + requestId
    ensures p[..|CreatePath(threadId)|] == CreatePath(threadId)
    ensures p[|CreatePath(threadId)| + 12..] == requestId
  {
    "/threads/" + threadId + "/export/pdf/async?request_id=" + requestId
  }

  /** The outcome of polling, with every poll result observed in order. */
  datatype Polled = Polled(outcome: PollResult, polls: seq<Option<Value>>)

  /** `retrieveExportPdfResponse`, allowed at most `fuel` status requests
      (the source recurses on `PROCESSING` without bound or delay). */
  function RetrieveExport(c: Client, threadId: string, requestId: string, net: Network, k: nat, fuel: nat)
    : (r: Run<Polled>)
    ensures |r.result.polls| <= fuel
    ensures r.result.outcome.StillProcessing? ==> |r.result.polls| == fuel
    // every poll goes through `_apiCall` and counts as one query, nothing else
    ensures r.client.stats == c.stats.(queryCount := c.stats.queryCount + |r.result.polls|)
    ensures SameConfig(c, r.client)
    ensures NeverReset(c.retries, r.client.retries)
    ensures r.next >= k
    // polling stops at the first poll that is not `PROCESSING`
    ensures forall m :: 0 <= m < |r.result.polls| - 1 ==> Processing(r.result.polls[m])
    ensures fuel > 0 ==> |r.result.polls| >= 1
    decreases fuel
  {
    if fuel == 0 then Run(c, Polled(StillProcessing, []), [], k)
    else
      var call := ApiCall(c, PollPath(threadId, requestId), Get, false, net, k);
      if Processing(call.result) then
        var rest := RetrieveExport(call.client, threadId, requestId, net, call.next, fuel - 1);
        var polls := [call.result] + rest.result.polls;
        assert polls[1..] == rest.result.polls;
        Run(rest.client, Polled(rest.result.outcome, polls), call.trace + rest.trace, rest.next)
      else
        var outcome := if Succeeded(call.result) then Ready(call.result.value) else Failed;
        Run(call.client, Polled(outcome, [call.result]), call.trace, call.next)
  }

  /** `polls` are the resolved values of consecutive status requests made
      through `_apiCall` from client `c`, the first meeting exchange `k`;
      the last of them leaves the client `end` and the network at `next`. */
  ghost predicate PollChain(c: Client, path: string, net: Network, k: nat, polls: seq<Option<Value>>,
                            end: Client, next: nat)
    decreases |polls|
  {
    if |polls| == 0 then end == c && next == k
    else
      var call := ApiCall(c, path, Get, false, net, k);
      && polls[0] == call.result
      && PollChain(call.client, path, net, call.next, polls[1..], end, next)
  }

  /** One status request, unfolded: a `PROCESSING` answer is followed by
      the rest of the polling from the client and exchange it left;
      any other answer is the last poll. */
  lemma RetrieveExportStep(c: Client, threadId: string, requestId: string, net: Network, k: nat, fuel: nat)
    ensures var r := RetrieveExport(c, threadId, requestId, net, k, fuel + 1);
            var call := ApiCall(c, PollPath(threadId, requestId), Get, false, net, k);
            && (Processing(call.result) ==>
                  var rest := RetrieveExport(call.client, threadId, requestId, net, call.next, fuel);
                  && r.result.polls == [call.result] + rest.result.polls
                  && r.client == rest.client && r.next == rest.next)
            && (!Processing(call.result) ==>
                  && r.result.polls == [call.result]
                  && r.client == call.client && r.next == call.next)
  {
  }

  /** One status request, unfolded, as the poller decides: a `PROCESSING`
      answer defers to the rest of the polling, any other answer decides. */
  lemma RetrieveExportStepOutcome(c: Client, threadId: string, requestId: string, net: Network, k: nat, fuel: nat)
    ensures var r := RetrieveExport(c, threadId, requestId, net, k, fuel + 1);
            var call := ApiCall(c, PollPath(threadId, requestId), Get, false, net, k);
            && (Processing(call.result) ==>
                  var rest := RetrieveExport(call.client, threadId, requestId, net, call.next, fuel);
                  && r.result.outcome == rest.result.outcome
                  && r.result.polls == [call.result] + rest.result.polls)
            && (!Processing(call.result) ==>
                  && r.result.outcome == (if Succeeded(call.result) then Ready(call.result.value) else Failed)
                  && r.result.polls == [call.result])
  {
  }

  /** `Decide` on a script that starts with poll `p`. */
  lemma DecideCons(p: Option<Value>, rest: seq<Option<Value>>)
    ensures Decide([p] + rest)
         == if Processing(p) then Decide(rest) else if Succeeded(p) then Ready(p.value) else Failed
  {
    assert ([p] + rest)[1..] == rest;
  }

  /** One status request, unfolded, as seen on the wire: the request's
      trace, then the rest of the polling's when it answered `PROCESSING`. */
  lemma RetrieveExportStepTrace(c: Client, threadId: string, requestId: string, net: Network, k: nat, fuel: nat)
    ensures var r := RetrieveExport(c, threadId, requestId, net, k, fuel + 1);
            var call := ApiCall(c, PollPath(threadId, requestId), Get, false, net, k);
            && (Processing(call.result) ==>
                  r.trace == call.trace + RetrieveExport(call.client, threadId, requestId, net, call.next, fuel).trace)
            && (!Processing(call.result) ==> r.trace == call.trace)
  {
  }

  /** A status request followed by a chain of polls is a chain of polls. */
  lemma PollChainCons(c: Client, path: string, net: Network, k: nat, rest: seq<Option<Value>>, end: Client, next: nat)
    requires var call := ApiCall(c, path, Get, false, net, k);
             PollChain(call.client, path, net, call.next, rest, end, next)
    ensures PollChain(c, path, net, k, [ApiCall(c, path, Get, false, net, k).result] + rest, end, next)
  {
    var polls := [ApiCall(c, path, Get, false, net, k).result] + rest;
    assert polls[1..] == rest;
  }

  /** The polls `RetrieveExport` reports are what the status requests
      returned, in order. */
  lemma {:induction false} RetrieveExportObserves(c: Client, threadId: string, requestId: string, net: Network,
                                                 k: nat, fuel: nat)
    ensures var r := RetrieveExport(c, threadId, requestId, net, k, fuel);
            PollChain(c, PollPath(threadId, requestId), net, k, r.result.polls, r.client, r.next)
    decreases fuel
  {
    if fuel > 0 {
      var call := ApiCall(c, PollPath(threadId, requestId), Get, false, net, k);
      var f: nat := fuel - 1;
      if Processing(call.result) {
        RetrieveExportObserves(call.client, threadId, requestId, net, call.next, f);
      }
      RetrieveExportObservesStep(c, threadId, requestId, net, k, f);
    }
  }

  /** The inductive step of `RetrieveExportObserves`: one more status
      request in front of a chain of polls is a chain of polls. */
  lemma RetrieveExportObservesStep(c: Client, threadId: string, requestId: string, net: Network, k: nat, fuel: nat)
    requires var call := ApiCall(c, PollPath(threadId, requestId), Get, false, net, k);
             var rest := RetrieveExport(call.client, threadId, requestId, net, call.next, fuel);
             Processing(call.result) ==>
               PollChain(call.client, PollPath(threadId, requestId), net, call.next, rest.result.polls, rest.client, rest.next)
    ensures var r := RetrieveExport(c, threadId, requestId, net, k, fuel + 1);
            PollChain(c, PollPath(threadId, requestId), net, k, r.result.polls, r.client, r.next)
  {
    var path := PollPath(threadId, requestId);
    var r := RetrieveExport(c, threadId, requestId, net, k, fuel + 1);
    var call := ApiCall(c, path, Get, false, net, k);
    RetrieveExportStep(c, threadId, requestId, net, k, fuel);
    if Processing(call.result) {
      var rest := RetrieveExport(call.client, threadId, requestId, net, call.next, fuel);
      PollChainCons(c, path, net, k, rest.result.polls, r.client, r.next);
    } else {
      PollChainCons(c, path, net, k, [], r.client, r.next);
    }
  }

  /** The outcome of polling is `Decide` applied to the polls it actually
      made: the first answer that is not `PROCESSING` decides. */
  lemma {:induction false} RetrieveExportDecides(c: Client, threadId: string, requestId: string, net: Network,
                                                k: nat, fuel: nat)
    ensures var r := RetrieveExport(c, threadId, requestId, net, k, fuel);
            r.result.outcome == Decide(r.result.polls)
    decreases fuel
  {
    if fuel > 0 {
      var call := ApiCall(c, PollPath(threadId, requestId), Get, false, net, k);
      var f: nat := fuel - 1;
      if Processing(call.result) {
        RetrieveExportDecides(call.client, threadId, requestId, net, call.next, f);
      }
      RetrieveExportDecidesStep(c, threadId, requestId, net, k, f);
    } else {
      assert RetrieveExport(c, threadId, requestId, net, k, fuel).result.polls == [];
    }
  }

  /** The inductive step of `RetrieveExportDecides`. */
  lemma RetrieveExportDecidesStep(c: Client, threadId: string, requestId: string, net: Network, k: nat, fuel: nat)
    requires var call := ApiCall(c, PollPath(threadId, requestId), Get, false, net, k);
             var rest := RetrieveExport(call.client, threadId, requestId, net, call.next, fuel);
             Processing(call.result) ==> rest.result.outcome == Decide(rest.result.polls)
    ensures var r := RetrieveExport(c, threadId, requestId, net, k, fuel + 1);
            r.result.outcome == Decide(r.result.polls)
  {
    var r := RetrieveExport(c, threadId, requestId, net, k, fuel + 1);
    var call := ApiCall(c, PollPath(threadId, requestId), Get, false, net, k);
    RetrieveExportStepOutcome(c, threadId, requestId, net, k, fuel);
    if Processing(call.result) {
      var rest := RetrieveExport(call.client, threadId, requestId, net, call.next, fuel);
      DecideCons(call.result, rest.result.polls);
    } else {
      DecideCons(call.result, []);
      assert [call.result] + [] == [call.result];
    }
  }

  /** Every request polling sends is a GET of the status path. */
  lemma {:induction false} RetrieveExportSendsOnly(c: Client, threadId: string, requestId: string, net: Network,
                                                  k: nat, fuel: nat)
    ensures var r := RetrieveExport(c, threadId, requestId, net, k, fuel);
            forall i :: 0 <= i < |r.trace| && r.trace[i].Sent? ==>
              r.trace[i].request == c.ApiRequest(PollPath(threadId, requestId), Get)
    decreases fuel
  {
    if fuel > 0 {
      var call := ApiCall(c, PollPath(threadId, requestId), Get, false, net, k);
      var f: nat := fuel - 1;
      if Processing(call.result) {
        RetrieveExportSendsOnly(call.client, threadId, requestId, net, call.next, f);
      }
      RetrieveExportSendsOnlyStep(c, threadId, requestId, net, k, f);
    }
  }

  /** The inductive step of `RetrieveExportSendsOnly`; the client a status
      request leaves builds the same request. */
  lemma RetrieveExportSendsOnlyStep(c: Client, threadId: string, requestId: string, net: Network, k: nat, fuel: nat)
    requires var call := ApiCall(c, PollPath(threadId, requestId), Get, false, net, k);
             var rest := RetrieveExport(call.client, threadId, requestId, net, call.next, fuel);
             Processing(call.result) ==>
               forall i :: 0 <= i < |rest.trace| && rest.trace[i].Sent? ==>
                 rest.trace[i].request == call.client.ApiRequest(PollPath(threadId, requestId), Get)
    ensures var r := RetrieveExport(c, threadId, requestId, net, k, fuel + 1);
            forall i :: 0 <= i < |r.trace| && r.trace[i].Sent? ==>
              r.trace[i].request == c.ApiRequest(PollPath(threadId, requestId), Get)
  {
    var path := PollPath(threadId, requestId);
    var call := ApiCall(c, path, Get, false, net, k);
    ApiCallSendsOnly(c, path, Get, false, net, k);
    RetrieveExportStepTrace(c, threadId, requestId, net, k, fuel);
    if Processing(call.result) {
      var rest := RetrieveExport(call.client, threadId, requestId, net, call.next, fuel);
      assert call.client.ApiRequest(path, Get) == c.ApiRequest(path, Get);
      SendsOnlyAppend(call.trace, rest.trace, c.ApiRequest(path, Get));
    }
  }

  /** `download`: fetches an absolute URL outside the API handlers (no
      header recording, no query count). A transport failure is retried
      while the registry, keyed by that URL, allows it; the delay it starts
      is not awaited, so no wait precedes the retry. `None` is the empty
      object returned after giving up, whose `ok` is falsy. */
  function Download(c: Client, url: string, net: Network, k: nat): (r: Run<Option<Response>>)
    ensures 1 <= |r.trace| <= Budget(c.retries, url) + 1
    ensures forall i :: 0 <= i < |r.trace| ==> r.trace[i] == Sent(Request(url, Get, c.Bearer()))
    ensures r.next == k + |r.trace|
    ensures r.result.Some? <==> At(net, r.next - 1).Answered?
    ensures r.result.Some? ==> r.result.value == At(net, r.next - 1).response
    ensures r.result.None? ==> Count(r.client.retries, url) > TimesLimitRetry
    // an answered fetch of any status ends the download: every earlier attempt threw
    ensures forall i :: k <= i < r.next - 1 ==> At(net, i).Threw?
    ensures Count(r.client.retries, url) ==
              Count(c.retries, url) + |r.trace| - (if r.result.Some? then 1 else 0)
    ensures forall u :: u != url ==> Count(r.client.retries, u) == Count(c.retries, u)
    ensures r.client == c.(retries := r.client.retries)
    decreases Budget(c.retries, url)
  {
    var req := Request(url, Get, c.Bearer());
    match At(net, k)
    case Answered(res, _) => Run(c, Some(res), [Sent(req)], k + 1)
    case Threw =>
      var q := Query(c.retries, url);
      var c1 := c.(retries := q.registry);
      if q.retry then
        var rest := Download(c1, url, net, k + 1);
        Run(rest.client, rest.result, [Sent(req)] + rest.trace, rest.next)
      else
        Run(c1, None, [Sent(req)], k + 1)
  }

  /** `createExportPdfRequest`: a POST through `_apiCall` that counts as a
      query but bumps no per-method counter. */
  function CreateExportPdfRequest(c: Client, threadId: string, net: Network, k: nat): (r: Run<Option<Value>>)
    ensures r.client.stats == c.stats.(queryCount := c.stats.queryCount + 1)
    ensures Sent(c.ApiRequest(CreatePath(threadId), Post)) in r.trace
    ensures forall i :: 0 <= i < |r.trace| && r.trace[i].Sent? ==>
              r.trace[i].request == c.ApiRequest(CreatePath(threadId), Post)
    ensures ResultFromLast(r, net, false)
    ensures SameConfig(c, r.client) && NeverReset(c.retries, r.client.retries)
  {
    var r := ApiCall(c, CreatePath(threadId), Post, false, net, k);
    ApiCallSendsOnly(c, CreatePath(threadId), Post, false, net, k);
    r
  }

  /** `${exportRequest.request_id}`: a missing member is rendered as the
      text "undefined" and polled under that id. */
  function RequestId(created: Value): (id: string)
    ensures Field(created, "request_id").None? ==> id == "undefined"
    ensures forall s :: Field(created, "request_id") == Some(JString(s)) ==> id == s
  {
    Render(Field(created, "request_id"))
  }

  /** `${response.pdf_url}`: a missing member is rendered as the text
      "undefined" and fetched as that URL. */
  function PdfUrl(job: Value): (url: string)
    ensures Field(job, "pdf_url").None? ==> url == "undefined"
    ensures forall s :: Field(job, "pdf_url") == Some(JString(s)) ==> url == s
  {
    Render(Field(job, "pdf_url"))
  }

  datatype ExportOutcome = Exported(pdf: Blob) | NotExported | Unfinished

  /** A PDF is present only when the last exchange was a `res.ok` download
      response, and it is that response's blob. */
  ghost predicate PdfFromLast(r: Run<ExportOutcome>, net: Network)
  {
    r.result.Exported? ==>
      && r.next >= 1
      && At(net, r.next - 1).Answered? && Ok(At(net, r.next - 1).response.status)
      && r.result.pdf == At(net, r.next - 1).response.body.blob
  }

  /** `r` is the outcome of downloading the job's `pdf_url` from client
      `c` at exchange `k`: a PDF exactly when the download resolved to an
      `ok` response, and then that response's blob. */
  ghost predicate DownloadedFrom(r: Run<ExportOutcome>, c: Client, job: Value, net: Network, k: nat)
  {
    var dl := Download(c, PdfUrl(job), net, k);
    && r.next == dl.next
    && (r.result.Exported? <==> dl.result.Some? && Ok(dl.result.value.status))
    && (r.result.Exported? ==> r.result.pdf == dl.result.value.body.blob)
  }

  /** The last stage of `exportToPDF`: download the job's `pdf_url` and
      hand back its blob only if the response is `ok`. */
  function DownloadPdf(c: Client, job: Value, net: Network, k: nat): (r: Run<ExportOutcome>)
    ensures DownloadedFrom(r, c, job, net, k)
    ensures !r.result.Unfinished? && r.next >= 1
    ensures r.result.Exported? <==>
              At(net, r.next - 1).Answered? && Ok(At(net, r.next - 1).response.status)
    ensures PdfFromLast(r, net)
    ensures r.trace == Download(c, PdfUrl(job), net, k).trace
    ensures r.client.stats == c.stats && SameConfig(c, r.client)
    ensures NeverReset(c.retries, r.client.retries)
  {
    var dl := Download(c, PdfUrl(job), net, k);
    var outcome := if dl.result.Some? && Ok(dl.result.value.status) then Exported(dl.result.value.body.blob)
                   else NotExported;
    Run(dl.client, outcome, dl.trace, dl.next)
  }

  /** The stage of `exportToPDF` after polling has stopped: only a settled
      success leads to a download. `prefix` is what the earlier stages did
      on the wire. */
  function ExportAfterPoll(poll: Run<Polled>, prefix: seq<Event>, net: Network): (r: Run<ExportOutcome>)
    ensures r.result.Unfinished? <==> poll.result.outcome.StillProcessing?
    ensures r.result.Exported? ==> poll.result.outcome.Ready?
    ensures !poll.result.outcome.Ready? ==> r.trace == prefix && r.client == poll.client && r.next == poll.next
    ensures poll.result.outcome.Failed? ==> r.result == NotExported
    ensures poll.result.outcome.Ready? ==>
              && DownloadedFrom(r, poll.client, poll.result.outcome.job, net, poll.next)
              && r.trace == prefix + Download(poll.client, PdfUrl(poll.result.outcome.job), net, poll.next).trace
    ensures PdfFromLast(r, net)
    ensures r.client.stats == poll.client.stats && SameConfig(poll.client, r.client)
    ensures NeverReset(poll.client.retries, r.client.retries)
  {
    match poll.result.outcome
    case StillProcessing => Run(poll.client, Unfinished, prefix, poll.next)
    case Failed => Run(poll.client, NotExported, prefix, poll.next)
    case Ready(job) =>
      var dl := DownloadPdf(poll.client, job, net, poll.next);
      dl.(trace := prefix + dl.trace)
  }

  /** The stage of `exportToPDF` after the create call: a falsy job handle
      ends the export, anything else is polled. */
  function ExportAfterCreate(create: Run<Option<Value>>, threadId: string, net: Network, fuel: nat)
    : (r: Run<ExportOutcome>)
    // a falsy or missing job handle ends the export without another request
    ensures create.result.None? || !Truthy(create.result.value) ==>
              r.result == NotExported && r.trace == create.trace
    // otherwise only a settled success exports, and then it is the download's outcome
    ensures create.result.Some? && Truthy(create.result.value) ==>
              var poll := RetrieveExport(create.client, threadId, RequestId(create.result.value), net, create.next, fuel);
              && (poll.result.outcome.Ready? ==> DownloadedFrom(r, poll.client, poll.result.outcome.job, net, poll.next))
              && (!poll.result.outcome.Ready? ==> !r.result.Exported?)
    ensures PdfFromLast(r, net)
    ensures r.client.stats == create.client.stats.(queryCount := r.client.stats.queryCount)
    ensures r.client.stats.queryCount >= create.client.stats.queryCount
    ensures SameConfig(create.client, r.client) && NeverReset(create.client.retries, r.client.retries)
  {
    if create.result.None? || !Truthy(create.result.value) then
      Run(create.client, NotExported, create.trace, create.next)
    else
      var poll := RetrieveExport(create.client, threadId, RequestId(create.result.value), net, create.next, fuel);
      var r := ExportAfterPoll(poll, create.trace + poll.trace, net);
      NeverResetTransitive(create.client.retries, poll.client.retries, r.client.retries);
      r
  }

  /** `exportToPDF`, with `fuel` bounding the status requests. A PDF is
      returned only from a `res.ok` download response, and it is that
      response's blob. */
  function ExportToPdf(c: Client, threadId: string, net: Network, k: nat, fuel: nat): (r: Run<ExportOutcome>)
    ensures PdfFromLast(r, net)
    // the export bumps no per-method counter
    ensures r.client.stats == c.stats.(queryCount := r.client.stats.queryCount)
    ensures r.client.stats.queryCount > c.stats.queryCount
    ensures SameConfig(c, r.client) && NeverReset(c.retries, r.client.retries)
  {
    var create := CreateExportPdfRequest(c, threadId, net, k);
    var r := ExportAfterCreate(create, threadId, net, fuel);
    NeverResetTransitive(c.retries, create.client.retries, r.client.retries);
    r
  }

  /** What `exportToPDF` resolves to: a PDF exactly when the create call
      resolved to a truthy job handle, polling settled on success, and the
      download of that job's `pdf_url` answered `ok`, and then it is the
      downloaded blob; a failed or unknown status, or a falsy handle, gives
      nothing; running out of polls leaves it unfinished. */
  lemma ExportToPdfOutcome(c: Client, threadId: string, net: Network, k: nat, fuel: nat)
    ensures var create := CreateExportPdfRequest(c, threadId, net, k);
            var r := ExportToPdf(c, threadId, net, k, fuel);
            && (create.result.None? || !Truthy(create.result.value) ==> r.result == NotExported)
            && (create.result.Some? && Truthy(create.result.value) ==>
                  var poll := RetrieveExport(create.client, threadId, RequestId(create.result.value), net, create.next, fuel);
                  && (r.result.Unfinished? <==> poll.result.outcome.StillProcessing?)
                  && (poll.result.outcome.Failed? ==> r.result == NotExported)
                  && (r.result.Exported? ==> poll.result.outcome.Ready?)
                  && (poll.result.outcome.Ready? ==>
                        var dl := Download(poll.client, PdfUrl(poll.result.outcome.job), net, poll.next);
                        && (r.result.Exported? <==> dl.result.Some? && Ok(dl.result.value.status))
                        && (r.result.Exported? ==> r.result.pdf == dl.result.value.body.blob)
                        && r.trace == create.trace + poll.trace + dl.trace
                        && r.next == dl.next))
  {
    var create := CreateExportPdfRequest(c, threadId, net, k);
    var r := ExportToPdf(c, threadId, net, k, fuel);
    assert r == ExportAfterCreate(create, threadId, net, fuel);
    if create.result.Some? && Truthy(create.result.value) {
      var poll := RetrieveExport(create.client, threadId, RequestId(create.result.value), net, create.next, fuel);
      assert r == ExportAfterPoll(poll, create.trace + poll.trace, net);
    }
  }

  /** The download is gated by the earlier stages: nothing is fetched
      unless the create call resolved to a truthy value and polling
      settled on success, and then every fetch goes to that job's
      `pdf_url`. */
  lemma ExportDownloadGate(c: Client, threadId: string, net: Network, k: nat, fuel: nat)
    ensures var create := CreateExportPdfRequest(c, threadId, net, k);
            var r := ExportToPdf(c, threadId, net, k, fuel);
            && (create.result.None? || !Truthy(create.result.value) ==>
                  r.result == NotExported && r.trace == create.trace)
            && (create.result.Some? && Truthy(create.result.value) ==>
                  var poll := RetrieveExport(create.client, threadId, RequestId(create.result.value), net, create.next, fuel);
                  && r.trace[..|create.trace + poll.trace|] == create.trace + poll.trace
                  && (|r.trace| > |create.trace + poll.trace| <==> poll.result.outcome.Ready?)
                  && (poll.result.outcome.Ready? ==>
                        var tail := r.trace[|create.trace + poll.trace|..];
                        forall i :: 0 <= i < |tail| ==>
                          tail[i] == Sent(Request(PdfUrl(poll.result.outcome.job), Get, c.Bearer()))))
  {
    var create := CreateExportPdfRequest(c, threadId, net, k);
    var r := ExportToPdf(c, threadId, net, k, fuel);
    assert r == ExportAfterCreate(create, threadId, net, fuel);
    if create.result.Some? && Truthy(create.result.value) {
      var poll := RetrieveExport(create.client, threadId, RequestId(create.result.value), net, create.next, fuel);
      assert r == ExportAfterPoll(poll, create.trace + poll.trace, net);
      if poll.result.outcome.Ready? {
        var job := poll.result.outcome.job;
        var dl := Download(poll.client, PdfUrl(job), net, poll.next);
        assert r.trace == (create.trace + poll.trace) + dl.trace;
        assert r.trace[|create.trace + poll.trace|..] == dl.trace;
        assert poll.client.Bearer() == c.Bearer();
      } else {
        assert r.trace == create.trace + poll.trace;
      }
    }
  }
}
