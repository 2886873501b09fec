/** The HTTP boundary of the client, as data: the requests it sends, the
    responses the network hands back, and the trace of what it did. */
module Http {
  import opened Values

  datatype Method = Get | Post

  /** A request as the client builds it: absolute URL, HTTP verb and the
      `Authorization` header value. */
  datatype Request = Request(url: string, verb: Method, authorization: string)

  /** A response body: `json` is what `res.json()` resolves to, `None` when
      the body is not valid JSON (so `res.json()` rejects); `blob` is what
      `res.blob()` resolves to. */
  datatype Body = Body(json: Option<Json>, blob: Blob)

  /** A response with its three rate-limit headers already parsed to
      integers (`x-ratelimit-limit`, `x-ratelimit-remaining`, and
      `x-ratelimit-reset` in epoch seconds). */
  datatype Response = Response(
    status: int,
    limitHeader: int,
    remainingHeader: int,
    resetHeader: int,
    body: Body)

  /** `res.ok`: the status is in the 2xx range. */
  predicate Ok(status: int)
  {
    200 <= status <= 299
  }

  /** One round trip: either `fetch` rejected (connection refused, DNS,
      timeout), or a response arrived and `now` is what the clock reads if
      the client consults it while handling that response. */
  datatype Exchange = Threw | Answered(response: Response, now: int)

  /** The network and the clock, scripted: the n-th request the client
      sends (counting from 0) meets exchange `At(net, n)`. Every request
      past the end of the script meets a transport failure. */
  type Network = seq<Exchange>

  function At(net: Network, n: nat): Exchange
  {
    if n < |net| then net[n] else Threw
  }

  /** What the client does that the outside world can observe. */
  datatype Event = Sent(request: Request) | Waited(duration: Duration)

  /** A trace that opens with a wait of `d`. */
  predicate WaitsFirst(trace: seq<Event>, d: Duration)
  {
    |trace| >= 1 && trace[0] == Waited(d)
  }

  /** The trace of one dispatch with its retries: the same request sent
      one or more times, each resend preceded by exactly one wait of at
      least `spacing`. */
  ghost predicate RetryTrace(trace: seq<Event>, req: Request, spacing: Duration)
    decreases |trace|
  {
    && |trace| >= 1
    && trace[0] == Sent(req)
    && (|trace| == 1 || (
          && |trace| >= 3
          && trace[1].Waited?
          && trace[1].duration.AtLeast(spacing)
          && RetryTrace(trace[2..], req, spacing)))
  }

  /** The number of resends in a retry trace. */
  function Resends(trace: seq<Event>): nat
  {
    if |trace| == 0 then 0 else (|trace| - 1) / 2
  }

  /** A resend after a wait extends a retry trace by one resend. */
  lemma RetryTraceCons(req: Request, wait: Duration, spacing: Duration, rest: seq<Event>)
    requires wait.AtLeast(spacing)
    requires RetryTrace(rest, req, spacing)
    ensures RetryTrace([Sent(req), Waited(wait)] + rest, req, spacing)
    ensures Resends([Sent(req), Waited(wait)] + rest) == Resends(rest) + 1
  {
    assert ([Sent(req), Waited(wait)] + rest)[2..] == rest;
  }

  /** Two traces that each send nothing but `req` send nothing else
      once joined. */
  lemma SendsOnlyAppend(a: seq<Event>, b: seq<Event>, req: Request)
    requires forall i :: 0 <= i < |a| && a[i].Sent? ==> a[i].request == req
    requires forall i :: 0 <= i < |b| && b[i].Sent? ==> b[i].request == req
    ensures forall i :: 0 <= i < |a + b| && (a + b)[i].Sent? ==> (a + b)[i].request == req
  {
    forall i | 0 <= i < |a + b| && (a + b)[i].Sent?
      ensures (a + b)[i].request == req
    {
      if i >= |a| {
        assert (a + b)[i] == b[i - |a|];
      }
    }
  }

  /** A retry trace sends nothing but its request. */
  lemma {:induction false} RetryTraceSendsOnly(trace: seq<Event>, req: Request, spacing: Duration)
    requires RetryTrace(trace, req, spacing)
    ensures Sent(req) in trace
    ensures forall i :: 0 <= i < |trace| && trace[i].Sent? ==> trace[i].request == req
    decreases |trace|
  {
    if |trace| > 1 {
      RetryTraceSendsOnly(trace[2..], req, spacing);
      forall i | 2 <= i < |trace| && trace[i].Sent?
        ensures trace[i].request == req
      {
        assert trace[i] == trace[2..][i - 2];
      }
    }
  }
}
