/** The per-operation invocation counters (`this.stats`). */
module Stats {

  datatype Counter =
    | QueryCount
    | GetThreadCount
    | GetThreadsCount
    | GetFolderCount
    | GetFoldersCount
    | GetBlobCount
    | GetPdfCount
    | GetXlsxCount
    | GetDocxCount
    | GetCurrentUserCount
    | GetThreadMessagesCount
    | GetUserCount

  datatype Counters = Counters(
    queryCount: nat,
    getThread: nat,
    getThreads: nat,
    getFolder: nat,
    getFolders: nat,
    getBlob: nat,
    getPdf: nat,
    getXlsx: nat,
    getDocx: nat,
    getCurrentUser: nat,
    getThreadMessages: nat,
    getUser: nat)
  {
    function Get(k: Counter): nat
    {
      match k
      case QueryCount => queryCount
      case GetThreadCount => getThread
      case GetThreadsCount => getThreads
      case GetFolderCount => getFolder
      case GetFoldersCount => getFolders
      case GetBlobCount => getBlob
      case GetPdfCount => getPdf
      case GetXlsxCount => getXlsx
      case GetDocxCount => getDocx
      case GetCurrentUserCount => getCurrentUser
      case GetThreadMessagesCount => getThreadMessages
      case GetUserCount => getUser
    }

    /** `this.stats.<k>++`: counter `k` goes up by one, every other counter
        keeps its value. */
    function Bump(k: Counter): (s: Counters)
      ensures s.Get(k) == Get(k) + 1
      ensures forall j :: j != k ==> s.Get(j) == Get(j)
    {
      match k
      case QueryCount => this.(queryCount := queryCount + 1)
      case GetThreadCount => this.(getThread := getThread + 1)
      case GetThreadsCount => this.(getThreads := getThreads + 1)
      case GetFolderCount => this.(getFolder := getFolder + 1)
      case GetFoldersCount => this.(getFolders := getFolders + 1)
      case GetBlobCount => this.(getBlob := getBlob + 1)
      case GetPdfCount => this.(getPdf := getPdf + 1)
      case GetXlsxCount => this.(getXlsx := getXlsx + 1)
      case GetDocxCount => this.(getDocx := getDocx + 1)
      case GetCurrentUserCount => this.(getCurrentUser := getCurrentUser + 1)
      case GetThreadMessagesCount => this.(getThreadMessages := getThreadMessages + 1)
      case GetUserCount => this.(getUser := getUser + 1)
    }
  }

  /** A method counter bumped on entry, then the query counter bumped by
      `_apiCall`: both go up by one and nothing else moves. */
  lemma BumpThenQuery(s: Counters, k: Counter)
    requires k != QueryCount
    ensures s.Bump(k).queryCount == s.queryCount
    ensures var t := s.Bump(k).(queryCount := s.queryCount + 1);
            && t.Get(k) == s.Get(k) + 1
            && t.queryCount == s.queryCount + 1
            && forall j :: j != k && j != QueryCount ==> t.Get(j) == s.Get(j)
  {
    var b := s.Bump(k);
    assert b.queryCount == s.queryCount;
  }

  /** All counters start at zero. */
  function Initial(): (s: Counters)
    ensures forall k :: s.Get(k) == 0
  {
    Counters(0, 0, 0, 0, 0, 0, 0, 0, 0, 0, 0, 0)
  }
}
