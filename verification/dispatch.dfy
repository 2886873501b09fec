/** Request dispatch and response classification: `_apiCall`,
    `_apiCallInDelay`, `_executeApiCall`, `_handleApiCallResponse`,
    `_handleApiCallResponseError` and `_httpCodeRetryable`. */
module Dispatch {
  import opened Values
  import opened Http
  import opened RetryRegistry
  import opened Stats
  import opened ClientState

  const HttpRetryCodes: seq<int> := [500, 503, 504, 429]

  /** `_httpCodeRetryable`. */
  predicate RetryableCode(code: int)
    ensures RetryableCode(code) <==> code == 500 || code == 503 || code == 504 || code == 429
  {
    code in HttpRetryCodes
  }

  /** What the client makes of a response once its headers are recorded. */
  datatype Verdict =
    | Deliver   // `res.ok`: read the body
    | GiveUp    // resolve to `undefined` without consulting the registry
    | Backoff   // ask the registry, and retry after a wait if it allows

  /** Lines 269-277 and 232-240. A failing status outside the retry codes
      gives up. So does a retryable status whose body is not JSON: the
      `await res.json()` that logs it rejects, and `_executeApiCall`'s catch
      turns that into `undefined` before the registry is asked. */
  function Classify(res: Response): (v: Verdict)
    ensures v == Deliver <==> Ok(res.status)
    ensures v == Backoff <==> res.status in {500, 503, 504, 429} && res.body.json.Some?
  {
    if Ok(res.status) then Deliver
    else if RetryableCode(res.status) && res.body.json.Some? then Backoff
    else GiveUp
  }

  /** `res.blob()` or `res.json()`; a body that is not JSON makes
      `res.json()` reject, which the caller's catch turns into `undefined`. */
  function ReadBody(body: Body, binary: bool): (v: Option<Value>)
    ensures binary ==> v == Some(BlobValue(body.blob))
    ensures !binary ==> (v.Some? <==> body.json.Some?)
    ensures !binary && v.Some? ==> v.value == JsonValue(body.json.value)
  {
    if binary then Some(BlobValue(body.blob))
    else if body.json.Some? then Some(JsonValue(body.json.value))
    else None
  }

  /** Lines 233-238: the spacing plus whatever is left until the recorded
      rate-limit reset. */
  function RetryWait(c: Client, now: int): (d: Duration)
    ensures d.AtLeast(c.waitingMs)
    ensures c.rateLimitResetMs <= now ==> d == c.waitingMs
    ensures d.Ms? ==> d.ms == c.waitingMs.ms + (if c.rateLimitResetMs > now then c.rateLimitResetMs - now else 0) as real
  {
    c.waitingMs.Plus(if c.rateLimitResetMs > now then c.rateLimitResetMs - now else 0)
  }

  /** The result is present exactly when the last exchange was a `res.ok`
      response, and it is that response's body. */
  ghost predicate ResultFromLast(r: Run<Option<Value>>, net: Network, binary: bool)
  {
    && r.next >= 1
    && (r.result.Some? ==> At(net, r.next - 1).Answered? && Ok(At(net, r.next - 1).response.status))
    && (At(net, r.next - 1).Answered? && Ok(At(net, r.next - 1).response.status) ==>
          r.result == ReadBody(At(net, r.next - 1).response.body, binary))
  }

  /** The registry after a backoff response has been classified: the
      query for the path is recorded whether or not it answers "retry". */
  function AfterBackoff(c: Client, res: Response, path: string): Client
  {
    var c1 := c.RecordHeaders(res);
    c1.(retries := Query(c1.retries, path).registry)
  }

  /** The exchange `ex` ends the call: this is the whole of
      `_executeApiCall` when no retry follows. */
  function Settle(c: Client, path: string, req: Request, ex: Exchange, binary: bool, k: nat)
    : (r: Run<Option<Value>>)
    ensures r.trace == [Sent(req)] && r.next == k + 1
    ensures r.client.stats == c.stats && SameConfig(c, r.client)
    ensures ex.Threw? ==> r.client == c && r.result.None?
    ensures ex.Answered? ==> HeadersFrom(r.client, ex.response)
    ensures ex.Answered? && Ok(ex.response.status) ==> r.result == ReadBody(ex.response.body, binary)
    ensures ex.Answered? && !Ok(ex.response.status) ==> r.result.None?
    ensures ex.Answered? && Classify(ex.response) == Backoff ==>
              r.client.retries == Query(c.retries, path).registry
    ensures !(ex.Answered? && Classify(ex.response) == Backoff) ==> r.client.retries == c.retries
  {
    match ex
    case Threw => Run(c, None, [Sent(req)], k + 1)
    case Answered(res, _) =>
      match Classify(res)
      case Deliver => Run(c.RecordHeaders(res), ReadBody(res.body, binary), [Sent(req)], k + 1)
      case GiveUp => Run(c.RecordHeaders(res), None, [Sent(req)], k + 1)
      case Backoff => Run(AfterBackoff(c, res, path), None, [Sent(req)], k + 1)
  }

  /** Whether exchange `ex` leads to a retry: a backoff response while the
      registry still allows one. */
  predicate Retries(c: Client, path: string, ex: Exchange)
  {
    ex.Answered? && Classify(ex.response) == Backoff && Query(c.retries, path).retry
  }

  /** `_executeApiCall` with the response handlers it awaits. The first
      request meets `At(net, k)`; each retry meets the next exchange. */
  function Execute(c: Client, path: string, verb: Method, binary: bool, net: Network, k: nat)
    : (r: Run<Option<Value>>)
    // every request is the same one; every resend follows one wait of at least the spacing
    ensures RetryTrace(r.trace, c.ApiRequest(path, verb), c.waitingMs)
    ensures Resends(r.trace) <= Budget(c.retries, path)
    ensures r.next == k + Resends(r.trace) + 1
    decreases Budget(c.retries, path)
  {
    var req := c.ApiRequest(path, verb);
    var ex := At(net, k);
    if Retries(c, path, ex) then
      var wait := RetryWait(c.RecordHeaders(ex.response), ex.now);
      var rest := Execute(AfterBackoff(c, ex.response, path), path, verb, binary, net, k + 1);
      RetryTraceCons(req, wait, c.waitingMs, rest.trace);
      Run(rest.client, rest.result, [Sent(req), Waited(wait)] + rest.trace, rest.next)
    else
      Settle(c, path, req, ex, binary, k)
  }

  /** The result is the body of the last response when that was `res.ok`,
      and absent otherwise. */
  lemma {:induction false} ExecuteResult(c: Client, path: string, verb: Method, binary: bool, net: Network, k: nat)
    ensures var r := Execute(c, path, verb, binary, net, k);
            ResultFromLast(r, net, binary)
    decreases Budget(c.retries, path)
  {
    var r := Execute(c, path, verb, binary, net, k);
    if Retries(c, path, At(net, k)) {
      var c2 := AfterBackoff(c, At(net, k).response, path);
      ExecuteResult(c2, path, verb, binary, net, k + 1);
      var rest := Execute(c2, path, verb, binary, net, k + 1);
      assert r.client == rest.client && r.result == rest.result && r.next == rest.next;
    } else {
      assert r == Settle(c, path, c.ApiRequest(path, verb), At(net, k), binary, k);
    }
  }

  /** The run ends holding the rate-limit fields its last response
      announced, and ends on a backoff response only with the path's retry
      count past the ceiling. */
  ghost predicate EndsAsAnnounced(r: Run<Option<Value>>, net: Network, path: string)
  {
    && r.next >= 1
    && (At(net, r.next - 1).Answered? ==> HeadersFrom(r.client, At(net, r.next - 1).response))
    && (At(net, r.next - 1).Answered? && Classify(At(net, r.next - 1).response) == Backoff ==>
          Count(r.client.retries, path) > TimesLimitRetry)
  }

  /** The rate-limit fields end as the last response announced them, and a
      response the client backs off from ends the call only once the
      registry has answered "give up" for the path: its count is past the
      ceiling. */
  lemma {:induction false} ExecuteLastHeaders(c: Client, path: string, verb: Method, binary: bool, net: Network, k: nat)
    ensures EndsAsAnnounced(Execute(c, path, verb, binary, net, k), net, path)
    decreases Budget(c.retries, path)
  {
    if Retries(c, path, At(net, k)) {
      ExecuteLastHeaders(AfterBackoff(c, At(net, k).response, path), path, verb, binary, net, k + 1);
    }
    ExecuteLastHeadersStep(c, path, verb, binary, net, k);
  }

  /** The inductive step of `ExecuteLastHeaders`: a retried call ends as
      its retry does, and a call that is not retried ends as `Settle`. */
  lemma ExecuteLastHeadersStep(c: Client, path: string, verb: Method, binary: bool, net: Network, k: nat)
    requires Retries(c, path, At(net, k)) ==>
               EndsAsAnnounced(Execute(AfterBackoff(c, At(net, k).response, path), path, verb, binary, net, k + 1), net, path)
    ensures EndsAsAnnounced(Execute(c, path, verb, binary, net, k), net, path)
  {
    var r := Execute(c, path, verb, binary, net, k);
    if Retries(c, path, At(net, k)) {
      var rest := Execute(AfterBackoff(c, At(net, k).response, path), path, verb, binary, net, k + 1);
      assert r.client == rest.client && r.next == rest.next;
    } else {
      assert r == Settle(c, path, c.ApiRequest(path, verb), At(net, k), binary, k);
    }
  }

  /** Retries leave the counters, the configuration and every other URL's
      registry entry alone, and never lower a count. */
  lemma {:induction false} ExecuteFrame(c: Client, path: string, verb: Method, binary: bool, net: Network, k: nat)
    ensures var r := Execute(c, path, verb, binary, net, k);
            && r.client.stats == c.stats
            && SameConfig(c, r.client)
            && NeverReset(c.retries, r.client.retries)
            && forall u :: u != path ==> Count(r.client.retries, u) == Count(c.retries, u)
    decreases Budget(c.retries, path)
  {
    var r := Execute(c, path, verb, binary, net, k);
    if Retries(c, path, At(net, k)) {
      var c2 := AfterBackoff(c, At(net, k).response, path);
      ExecuteFrame(c2, path, verb, binary, net, k + 1);
      var rest := Execute(c2, path, verb, binary, net, k + 1);
      assert r.client == rest.client && r.result == rest.result && r.next == rest.next;
    } else {
      assert r == Settle(c, path, c.ApiRequest(path, verb), At(net, k), binary, k);
    }
  }

  /** How the first exchange decides the call. A transport failure is
      logged and not retried (the catch in `_executeApiCall`); a failing
      status outside the retry codes gives up with the registry untouched;
      a backoff retries exactly when the registry still allows it; an `ok`
      response ends the call with its body, for every kind of call and body. */
  lemma ExecuteFirstExchange(c: Client, path: string, verb: Method, binary: bool, net: Network, k: nat)
    ensures var r := Execute(c, path, verb, binary, net, k);
            && (At(net, k).Threw? ==> r == Run(c, None, [Sent(c.ApiRequest(path, verb))], k + 1))
            && (At(net, k).Answered? && Ok(At(net, k).response.status) ==>
                  && r.trace == [Sent(c.ApiRequest(path, verb))]
                  && r.result == ReadBody(At(net, k).response.body, binary)
                  && r.next == k + 1)
            && (At(net, k).Answered? && Classify(At(net, k).response) == GiveUp ==>
                  r.result.None? && |r.trace| == 1 && r.client.retries == c.retries)
            && (At(net, k).Answered? && Classify(At(net, k).response) == Backoff ==>
                  (|r.trace| > 1 <==> Budget(c.retries, path) > 0))
  {
  }

  /** Dispatch is delayed by the spacing when the quota is used up or delay
      mode is on. */
  predicate Delays(c: Client)
    // the used-up quota is tested first (line 191), delay mode second (line 196)
    ensures c.rateLimitRemaining <= 0 ==> Delays(c)
    ensures c.rateLimitRemaining > 0 ==> (Delays(c) <==> c.delayCalls)
  {
    c.rateLimitRemaining <= 0 || c.delayCalls
  }

  /** What `_apiCall` does before executing: one wait of the spacing when
      it `Delays` (`_apiCallInDelay`), nothing otherwise. */
  function Lead(c: Client): seq<Event>
  {
    if Delays(c) then [Waited(c.waitingMs)] else []
  }

  /** `_apiCall`: counts the query once, waits the spacing if `Delays`, then
      executes. Retries re-enter below this point and are not counted again. */
  function ApiCall(c: Client, path: string, verb: Method, binary: bool, net: Network, k: nat)
    : (r: Run<Option<Value>>)
    ensures r.client.stats == c.stats.(queryCount := c.stats.queryCount + 1)
    ensures |r.trace| >= 1 && (r.trace[0] == Waited(c.waitingMs) <==> Delays(c))
    ensures ResultFromLast(r, net, binary)
    ensures SameConfig(c, r.client)
    ensures NeverReset(c.retries, r.client.retries)
    ensures forall u :: u != path ==> Count(r.client.retries, u) == Count(c.retries, u)
  {
    var c1 := c.(stats := c.stats.(queryCount := c.stats.queryCount + 1));
    var e := Execute(c1, path, verb, binary, net, k);
    ExecuteResult(c1, path, verb, binary, net, k);
    ExecuteFrame(c1, path, verb, binary, net, k);
    assert e.trace[0] == Sent(c1.ApiRequest(path, verb));
    Run(e.client, e.result, Lead(c) + e.trace, e.next)
  }

  /** After the lead, a call is a retry trace of its one request: every
      resend follows a wait of at least the spacing, there are at most as
      many resends as the registry allows for the path, and each request
      consumed one exchange. */
  lemma ApiCallRetries(c: Client, path: string, verb: Method, binary: bool, net: Network, k: nat)
    ensures var r := ApiCall(c, path, verb, binary, net, k);
            && |Lead(c)| <= |r.trace|
            && var sends := r.trace[|Lead(c)|..];
               && RetryTrace(sends, c.ApiRequest(path, verb), c.waitingMs)
               && Resends(sends) <= Budget(c.retries, path)
               && r.next == k + Resends(sends) + 1
  {
    var c1 := c.(stats := c.stats.(queryCount := c.stats.queryCount + 1));
    var e := Execute(c1, path, verb, binary, net, k);
    var r := ApiCall(c, path, verb, binary, net, k);
    assert r.trace == Lead(c) + e.trace;
    assert r.trace[|Lead(c)|..] == e.trace;
  }

  /** A call sends its one request, possibly several times, and nothing else. */
  lemma ApiCallSendsOnly(c: Client, path: string, verb: Method, binary: bool, net: Network, k: nat)
    ensures var r := ApiCall(c, path, verb, binary, net, k);
            && Sent(c.ApiRequest(path, verb)) in r.trace
            && forall i :: 0 <= i < |r.trace| && r.trace[i].Sent? ==> r.trace[i].request == c.ApiRequest(path, verb)
  {
    ApiCallRetries(c, path, verb, binary, net, k);
    var r := ApiCall(c, path, verb, binary, net, k);
    var sends := r.trace[|Lead(c)|..];
    RetryTraceSendsOnly(sends, c.ApiRequest(path, verb), c.waitingMs);
    assert r.trace == Lead(c) + sends;
    forall i | 0 <= i < |r.trace| && r.trace[i].Sent?
      ensures r.trace[i].request == c.ApiRequest(path, verb)
    {
      assert i >= |Lead(c)|;
      assert r.trace[i] == sends[i - |Lead(c)|];
    }
  }

  /** A 429 (or 5xx) response's headers are recorded before the retry
      decision: the backoff wait is computed from the reset this very
      response announced. */
  lemma BackoffUsesFreshHeaders(c: Client, path: string, verb: Method, binary: bool, net: Network, k: nat)
    requires At(net, k).Answered? && Classify(At(net, k).response) == Backoff
    requires Budget(c.retries, path) > 0
    ensures var r := Execute(c, path, verb, binary, net, k);
            var res := At(net, k).response;
            var now := At(net, k).now;
            && |r.trace| > 1
            && r.trace[1] == Waited(c.waitingMs.Plus(
                 if res.resetHeader * 1000 > now then res.resetHeader * 1000 - now else 0))
  {
  }

  /** The rate-limit fields end as the last response of the call announced
      them. */
  lemma ApiCallLastHeaders(c: Client, path: string, verb: Method, binary: bool, net: Network, k: nat)
    ensures var r := ApiCall(c, path, verb, binary, net, k);
            At(net, r.next - 1).Answered? ==> HeadersFrom(r.client, At(net, r.next - 1).response)
  {
    ApiCallExecutes(c, path, verb, binary, net, k);
    ExecuteLastHeaders(c.(stats := c.stats.(queryCount := c.stats.queryCount + 1)), path, verb, binary, net, k);
  }

  /** A server that keeps answering with a retryable status is asked until
      the registry gives up: exactly `Budget` resends, no result, and one
      more registry query than resends. */
  lemma {:induction false} ExecuteExhaustsBudget(c: Client, path: string, verb: Method, binary: bool, net: Network, k: nat)
    requires forall i :: k <= i <= k + Budget(c.retries, path) ==>
               At(net, i).Answered? && Classify(At(net, i).response) == Backoff
    ensures var r := Execute(c, path, verb, binary, net, k);
            && r.result.None?
            && Resends(r.trace) == Budget(c.retries, path)
            && r.next == k + Budget(c.retries, path) + 1
            && Count(r.client.retries, path) == Count(c.retries, path) + Budget(c.retries, path) + 1
    decreases Budget(c.retries, path)
  {
    var r := Execute(c, path, verb, binary, net, k);
    var ex := At(net, k);
    if Retries(c, path, ex) {
      var c2 := AfterBackoff(c, ex.response, path);
      assert Budget(c2.retries, path) == Budget(c.retries, path) - 1;
      ExecuteExhaustsBudget(c2, path, verb, binary, net, k + 1);
      var rest := Execute(c2, path, verb, binary, net, k + 1);
      assert r.trace == [Sent(c.ApiRequest(path, verb)), Waited(RetryWait(c.RecordHeaders(ex.response), ex.now))] + rest.trace;
      assert r.client == rest.client && r.result == rest.result;
    } else {
      assert r == Settle(c, path, c.ApiRequest(path, verb), ex, binary, k);
    }
  }

  /** One retry, unfolded: the request, the backoff wait computed from the
      response just recorded, then the rest of the call on the next
      exchange. */
  lemma ExecuteRetryStep(c: Client, path: string, verb: Method, binary: bool, net: Network, k: nat)
    requires Retries(c, path, At(net, k))
    ensures var r := Execute(c, path, verb, binary, net, k);
            var ex := At(net, k);
            var rest := Execute(AfterBackoff(c, ex.response, path), path, verb, binary, net, k + 1);
            && r.trace == [Sent(c.ApiRequest(path, verb)), Waited(RetryWait(c.RecordHeaders(ex.response), ex.now))] + rest.trace
            && r.client == rest.client && r.result == rest.result && r.next == rest.next
  {
  }

  /** `_apiCall` is `_executeApiCall` on the client with one more query
      counted, preceded by one wait of the spacing when it `Delays`. */
  lemma ApiCallExecutes(c: Client, path: string, verb: Method, binary: bool, net: Network, k: nat)
    ensures var r := ApiCall(c, path, verb, binary, net, k);
            var e := Execute(c.(stats := c.stats.(queryCount := c.stats.queryCount + 1)), path, verb, binary, net, k);
            && r.client == e.client && r.result == e.result && r.next == e.next
            && r.trace == Lead(c) + e.trace
  {
    var c1 := c.(stats := c.stats.(queryCount := c.stats.queryCount + 1));
    assert ApiCall(c, path, verb, binary, net, k)
        == var e := Execute(c1, path, verb, binary, net, k); Run(e.client, e.result, Lead(c) + e.trace, e.next);
  }
}
