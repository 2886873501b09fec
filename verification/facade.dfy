/** The public read methods of `QuipService` (`getUser` … `getXlsx`) and
    `checkUser`. Each read bumps its own counter and then goes through
    `_apiCall` with a fixed path. */
module Facade {
  import opened Values
  import opened Http
  import opened RetryRegistry
  import opened Stats
  import opened ClientState
  import opened Dispatch

  /** One call of a public read method, with its arguments. */
  datatype Call =
    | GetUser(userIds: string)
    | GetCurrentUser
    | GetFolder(folderId: string)
    | GetThread(threadId: string)
    | GetThreadMessages(threadId: string)
    | GetThreads(threadIds: string)
    | GetFolders(folderIds: string)
    | GetBlob(threadId: string, blobId: string)
    | GetPdf(threadId: string)
    | GetDocx(threadId: string)
    | GetXlsx(threadId: string)

  /** The API path each method requests, relative to the base URL. */
  function Path(call: Call): (p: string)
    ensures |p| >= 1 && p[0] == '/'
    // `getCurrentUser` reads the same URL that `checkUser` fetches directly
    ensures call.GetCurrentUser? ==> p == "/users/current"
  {
    match call
    case GetUser(ids) => "/users/" + ids
    case GetCurrentUser => "/users/current"
    case GetFolder(id) => "/folders/" + id
    case GetThread(id) => "/threads/" + id
    case GetThreadMessages(id) => "/messages/" + id
    case GetThreads(ids) => "/threads/?ids=" + ids
    case GetFolders(ids) => "/folders/?ids=" + ids
    case GetBlob(t, b) => "/blob/" + t + "/" + b
    case GetPdf(t) => "/threads/" + t + "/export/pdf"
    case GetDocx(t) => "/threads/" + t + "/export/docx"
    case GetXlsx(t) => "/threads/" + t + "/export/xlsx"
  }

  /** The fixed text before a method's argument in its path. */
  function PathPrefix(call: Call): string
  {
    match call
    case GetUser(_) => "/users/"
    case GetCurrentUser => "/users/current"
    case GetFolder(_) => "/folders/"
    case GetThread(_) => "/threads/"
    case GetThreadMessages(_) => "/messages/"
    case GetThreads(_) => "/threads/?ids="
    case GetFolders(_) => "/folders/?ids="
    case GetBlob(_, _) => "/blob/"
    case GetPdf(_) | GetDocx(_) | GetXlsx(_) => "/threads/"
  }

  /** The argument a method places in its path (the thread id for `getBlob`). */
  function PathArgument(call: Call): string
  {
    match call
    case GetUser(ids) => ids
    case GetCurrentUser => ""
    case GetFolder(id) => id
    case GetThread(id) => id
    case GetThreadMessages(id) => id
    case GetThreads(ids) => ids
    case GetFolders(ids) => ids
    case GetBlob(t, _) => t
    case GetPdf(t) => t
    case GetDocx(t) => t
    case GetXlsx(t) => t
  }

  /** The text after the argument: the blob id, or the export format. */
  function PathSuffix(call: Call): string
  {
    match call
    case GetBlob(_, b) => "/" + b
    case GetPdf(_) => "/export/pdf"
    case GetDocx(_) => "/export/docx"
    case GetXlsx(_) => "/export/xlsx"
    case _ => ""
  }

  /** Every path is its fixed prefix, the method's argument verbatim, and
      its fixed suffix, so the argument can be read back from the request:
      `/threads/<id>` for `getThread`, `/blob/<thread>/<blob>` for
      `getBlob`, `/threads/<id>/export/pdf` for `getPdf`, and so on. */
  lemma PathReadBack(call: Call)
    ensures Framed(Path(call), PathPrefix(call), PathArgument(call), PathSuffix(call))
  {
    PathParts(call);
    FramedConcat(PathPrefix(call), PathArgument(call), PathSuffix(call));
  }

  /** A path is the concatenation of its three parts. */
  lemma PathParts(call: Call)
    ensures Path(call) == PathPrefix(call) + PathArgument(call) + PathSuffix(call)
  {
    match call
    case GetCurrentUser => assert "/users/current" + "" + "" == "/users/current";
    case GetBlob(t, b) => assert "/blob/" + t + "/" + b == "/blob/" + t + ("/" + b);
    case GetUser(ids) => assert "/users/" + ids + "" == "/users/" + ids;
    case GetFolder(id) => assert "/folders/" + id + "" == "/folders/" + id;
    case GetThread(id) => assert "/threads/" + id + "" == "/threads/" + id;
    case GetThreadMessages(id) => assert "/messages/" + id + "" == "/messages/" + id;
    case GetThreads(ids) => assert "/threads/?ids=" + ids + "" == "/threads/?ids=" + ids;
    case GetFolders(ids) => assert "/folders/?ids=" + ids + "" == "/folders/?ids=" + ids;
    case GetPdf(_) =>
    case GetDocx(_) =>
    case GetXlsx(_) =>
  }

  /** The counter each method bumps on entry. */
  function CounterOf(call: Call): Counter
  {
    match call
    case GetUser(_) => GetUserCount
    case GetCurrentUser => GetCurrentUserCount
    case GetFolder(_) => GetFolderCount
    case GetThread(_) => GetThreadCount
    case GetThreadMessages(_) => GetThreadMessagesCount
    case GetThreads(_) => GetThreadsCount
    case GetFolders(_) => GetFoldersCount
    case GetBlob(_, _) => GetBlobCount
    case GetPdf(_) => GetPdfCount
    case GetDocx(_) => GetDocxCount
    case GetXlsx(_) => GetXlsxCount
  }

  /** Whether the method goes through `_apiCallBlob` rather than
      `_apiCallJson`. */
  predicate Binary(call: Call)
  {
    call.GetBlob? || call.GetPdf? || call.GetDocx? || call.GetXlsx?
  }

  /** Two calls of the same method differ only in their arguments. */
  predicate SameMethod(a: Call, b: Call)
  {
    match a
    case GetUser(_) => b.GetUser?
    case GetCurrentUser => b.GetCurrentUser?
    case GetFolder(_) => b.GetFolder?
    case GetThread(_) => b.GetThread?
    case GetThreadMessages(_) => b.GetThreadMessages?
    case GetThreads(_) => b.GetThreads?
    case GetFolders(_) => b.GetFolders?
    case GetBlob(_, _) => b.GetBlob?
    case GetPdf(_) => b.GetPdf?
    case GetDocx(_) => b.GetDocx?
    case GetXlsx(_) => b.GetXlsx?
  }

  /** Every method has a counter of its own, and none of them is the query
      counter that `_apiCall` keeps. */
  lemma CountersPerMethod(a: Call, b: Call)
    ensures CounterOf(a) != QueryCount
    ensures CounterOf(a) == CounterOf(b) <==> SameMethod(a, b)
  {
  }

  /** Running a public read method: its counter goes up by one, `_apiCall`
      counts one query, and every other counter is left alone. A result is
      present only from a `res.ok` response; it is a blob exactly for the
      binary methods. */
  function Invoke(c: Client, call: Call, net: Network, k: nat): (r: Run<Option<Value>>)
    ensures r.client.stats.Get(CounterOf(call)) == c.stats.Get(CounterOf(call)) + 1
    ensures r.client.stats.queryCount == c.stats.queryCount + 1
    ensures forall j :: j != CounterOf(call) && j != QueryCount ==> r.client.stats.Get(j) == c.stats.Get(j)
    ensures ResultFromLast(r, net, Binary(call))
    ensures r.result.Some? ==> (r.result.value.BlobValue? <==> Binary(call))
    ensures SameConfig(c, r.client) && NeverReset(c.retries, r.client.retries)
    // the spacing is waited first exactly when the quota is used up or delay mode is on
    ensures |r.trace| >= 1 && (r.trace[0] == Waited(c.waitingMs) <==> Delays(c))
  {
    CountersPerMethod(call, call);
    BumpThenQuery(c.stats, CounterOf(call));
    var c1 := c.(stats := c.stats.Bump(CounterOf(call)));
    var r := ApiCall(c1, Path(call), Get, Binary(call), net, k);
    assert Delays(c1) == Delays(c);
    r
  }

  /** The request a method sends, possibly several times, and no other. */
  lemma InvokeSendsOnly(c: Client, call: Call, net: Network, k: nat)
    ensures var r := Invoke(c, call, net, k);
            && Sent(Request(c.apiUrl + Path(call), Get, "Bearer " + c.accessToken)) in r.trace
            && forall i :: 0 <= i < |r.trace| && r.trace[i].Sent? ==>
                 r.trace[i].request == Request(c.apiUrl + Path(call), Get, "Bearer " + c.accessToken)
  {
    var c1 := c.(stats := c.stats.Bump(CounterOf(call)));
    ApiCallSendsOnly(c1, Path(call), Get, Binary(call), net, k);
  }

  /** `checkUser`: bumps the current-user counter, then fetches
      `/users/current` directly, outside `_apiCall`: no query count, no
      delay, no header recording, no retry. A transport failure rejects the
      returned promise (the fetch is not inside a `try`), written `None`. */
  function CheckUser(c: Client, net: Network, k: nat): (r: Run<Option<bool>>)
    ensures r.client == c.(stats := r.client.stats)
    ensures r.client.stats.Get(GetCurrentUserCount) == c.stats.Get(GetCurrentUserCount) + 1
    ensures forall j :: j != GetCurrentUserCount ==> r.client.stats.Get(j) == c.stats.Get(j)
    ensures r.trace == [Sent(Request(c.apiUrl + "/users/current", Get, "Bearer " + c.accessToken))]
    ensures r.next == k + 1
    ensures r.result.None? <==> At(net, k).Threw?
    ensures r.result.Some? ==> (r.result.value <==> 200 <= At(net, k).response.status <= 299)
  {
    var c1 := c.(stats := c.stats.Bump(GetCurrentUserCount));
    var req := Request(c.apiUrl + "/users/current", Get, c.Bearer());
    match At(net, k)
    case Threw => Run(c1, None, [Sent(req)], k + 1)
    case Answered(res, _) => Run(c1, Some(Ok(res.status)), [Sent(req)], k + 1)
  }

  /** `checkUser` and `getCurrentUser` request the same URL and bump the
      same counter, but only the latter counts as a query. */
  lemma CheckUserIsNotAQuery(c: Client, net: Network, k: nat)
    ensures var probe := CheckUser(c, net, k);
            var read := Invoke(c, GetCurrentUser, net, k);
            && probe.client.stats.Get(GetCurrentUserCount) == read.client.stats.Get(GetCurrentUserCount)
            && probe.client.stats.queryCount == c.stats.queryCount
            && read.client.stats.queryCount == c.stats.queryCount + 1
            && probe.trace[0] in read.trace
  {
    InvokeSendsOnly(c, GetCurrentUser, net, k);
  }

  /** A read from client `c` waits the spacing before its first request. */
  predicate WaitsBeforeSending(c: Client, call: Call, net: Network, k: nat)
  {
    WaitsFirst(Invoke(c, call, net, k).trace, c.waitingMs)
  }

  /** The quota a response announces governs the next call: once the last
      response of a read said no requests remain (or delay mode is on), the
      next read waits the spacing before its first request; otherwise it
      sends straight away. */
  lemma QuotaGatesNextCall(c: Client, first: Call, second: Call, net: Network, k: nat)
    requires var r := Invoke(c, first, net, k); r.next >= 1 && At(net, r.next - 1).Answered?
    ensures var r := Invoke(c, first, net, k);
            WaitsBeforeSending(r.client, second, net, r.next) <==>
              At(net, r.next - 1).response.remainingHeader <= 0 || c.delayCalls
  {
    InvokeLastHeaders(c, first, net, k);
  }

  /** The rate-limit fields end as the last response of the read announced
      them. */
  lemma InvokeLastHeaders(c: Client, call: Call, net: Network, k: nat)
    ensures var r := Invoke(c, call, net, k);
            At(net, r.next - 1).Answered? ==> HeadersFrom(r.client, At(net, r.next - 1).response)
  {
    var c1 := c.(stats := c.stats.Bump(CounterOf(call)));
    ApiCallLastHeaders(c1, Path(call), Get, Binary(call), net, k);
  }

  /** A read is `_apiCall` on its path, after its own counter is bumped. */
  lemma InvokeCallsApi(c: Client, call: Call, net: Network, k: nat)
    ensures Invoke(c, call, net, k)
         == ApiCall(c.(stats := c.stats.Bump(CounterOf(call))), Path(call), Get, Binary(call), net, k)
  {
  }
}
