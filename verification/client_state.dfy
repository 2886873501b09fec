/** The client instance's state (`QuipService`'s fields) and the result of
    running one of its operations. */
module ClientState {
  import opened Values
  import opened Http
  import opened Spacing
  import opened RetryRegistry
  import opened Stats

  const DefaultApiUrl: string := "https://platform.quip.com:443/1"

  datatype Client = Client(
    accessToken: string,
    apiUrl: string,
    retries: Registry,
    waitingMs: Duration,
    delayCalls: bool,
    stats: Counters,
    rateLimitResetMs: int,
    rateLimitRemaining: int,
    rateLimitLimit: int)
  {
    /** The `Authorization` header of every request (`_getOptions`). */
    function Bearer(): string
    {
      "Bearer " + accessToken
    }

    /** The request for an API path, relative to the base URL. */
    function ApiRequest(path: string, verb: Method): Request
    {
      Request(apiUrl + path, verb, Bearer())
    }

    /** Lines 263-265 with `_extractHeaders`: the three rate-limit fields are
        overwritten from the response, the reset converted to milliseconds. */
    function RecordHeaders(res: Response): (c: Client)
      ensures HeadersFrom(c, res)
      ensures c.(rateLimitLimit := rateLimitLimit,
                 rateLimitRemaining := rateLimitRemaining,
                 rateLimitResetMs := rateLimitResetMs) == this
    {
      this.(rateLimitLimit := res.limitHeader,
            rateLimitRemaining := res.remainingHeader,
            rateLimitResetMs := res.resetHeader * 1000)
    }
  }

  /** Every API request goes to the base URL followed by the path, with
      the verb asked for and the access token as bearer credential; both
      the path and the token can be read back from the request. */
  lemma ApiRequestParts(c: Client, path: string, verb: Method)
    ensures var r := c.ApiRequest(path, verb);
            && |r.url| == |c.apiUrl| + |path| && r.url[..|c.apiUrl|] == c.apiUrl && r.url[|c.apiUrl|..] == path
            && r.verb == verb
            && |r.authorization| == 7 + |c.accessToken|
            && r.authorization[..7] == "Bearer " && r.authorization[7..] == c.accessToken
  {
  }

  /** The rate-limit fields hold exactly what `res` announced. */
  predicate HeadersFrom(c: Client, res: Response)
  {
    && c.rateLimitLimit == res.limitHeader
    && c.rateLimitRemaining == res.remainingHeader
    && c.rateLimitResetMs == res.resetHeader * 1000
  }

  /** The parts of the state no request changes. */
  predicate SameConfig(c: Client, d: Client)
  {
    && c.accessToken == d.accessToken
    && c.apiUrl == d.apiUrl
    && c.waitingMs == d.waitingMs
    && c.delayCalls == d.delayCalls
  }

  /** The constructor; `now` is `Date.now()` at construction. Without a
      base URL (`undefined`) the default parameter, the public Quip
      platform, is used. */
  function New(accessToken: string, apiUrl: Option<string>, now: int): (c: Client)
    ensures c.accessToken == accessToken
    ensures apiUrl.Some? ==> c.apiUrl == apiUrl.value
    ensures apiUrl.None? ==> c.apiUrl == "https://platform.quip.com:443/1"
    ensures c.rateLimitRemaining == c.rateLimitLimit == DefaultRateLimitsMinute
    ensures c.rateLimitResetMs == now
    ensures !c.delayCalls
    ensures forall u :: Count(c.retries, u) == 0
    ensures forall k :: c.stats.Get(k) == 0
    ensures c.waitingMs == Ms(5000.0)
  {
    DefaultSpacing();
    var url := if apiUrl.Some? then apiUrl.value else DefaultApiUrl;
    Client(accessToken, url, Empty, WaitingMs(DefaultRateLimitsMinute as real), false, Initial(),
           now, DefaultRateLimitsMinute, DefaultRateLimitsMinute)
  }

  /** `setWaitingMs`: only the spacing changes. Called without a limit
      (`undefined`), it restores the spacing of a new client. */
  function SetWaitingMs(c: Client, minuteRateLimits: Option<real>): (d: Client)
    ensures minuteRateLimits.Some? ==> d.waitingMs == WaitingMs(minuteRateLimits.value)
    ensures minuteRateLimits.None? ==> d.waitingMs == Ms(5000.0)
    ensures d.(waitingMs := c.waitingMs) == c
  {
    c.(waitingMs := WaitingMsOrDefault(minuteRateLimits))
  }

  /** `setForceDelay`: switches delay mode on for the rest of the client's life. */
  function SetForceDelay(c: Client): (d: Client)
    ensures d.delayCalls
    ensures d.(delayCalls := c.delayCalls) == c
  {
    c.(delayCalls := true)
  }

  /** The outcome of running an operation: the new state, the operation's
      result, what it did on the wire and in time, and the index of the
      next exchange the network will hand out. */
  datatype Run<T> = Run(client: Client, result: T, trace: seq<Event>, next: nat)
}
