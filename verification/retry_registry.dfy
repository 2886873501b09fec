/** The per-URL retry registry (`queriesRetry`). Asking whether a URL may be
    retried is itself an attempt: the count goes up on every query. */
module RetryRegistry {

  const TimesLimitRetry: nat := 10

  /** URL (exact string, query string included) to number of queries. */
  type Registry = map<string, nat>

  const Empty: Registry := map[]

  /** The count recorded for `url`; an absent entry counts as 0. */
  function Count(reg: Registry, url: string): nat
  {
    if url in reg then reg[url] else 0
  }

  /** How many more queries for `url` will still answer "retry". */
  function Budget(reg: Registry, url: string): nat
  {
    if Count(reg, url) < TimesLimitRetry then TimesLimitRetry - Count(reg, url) else 0
  }

  datatype Answer = Answer(registry: Registry, retry: bool)

  /** `_httpCallRetryable`: records one more attempt for `url` and answers
      "retry" while the new count is at most the ceiling. */
  function Query(reg: Registry, url: string): (a: Answer)
    ensures Count(a.registry, url) == Count(reg, url) + 1
    ensures forall u :: u != url ==> Count(a.registry, u) == Count(reg, u)
    ensures a.retry <==> Budget(reg, url) > 0
    ensures a.retry ==> Budget(a.registry, url) == Budget(reg, url) - 1
  {
    var count := Count(reg, url) + 1;
    Answer(reg[url := count], count <= TimesLimitRetry)
  }

  /** Counts only ever grow: no URL is ever reset. */
  ghost predicate NeverReset(before: Registry, after: Registry)
  {
    forall u :: Count(before, u) <= Count(after, u)
  }

  lemma NeverResetTransitive(a: Registry, b: Registry, c: Registry)
    requires NeverReset(a, b) && NeverReset(b, c)
    ensures NeverReset(a, c)
  {
  }

  /** The registry after `n` consecutive queries for `url`, with the answers
      in order. */
  datatype Replay = Replay(registry: Registry, answers: seq<bool>)

  function QueryTimes(reg: Registry, url: string, n: nat): (r: Replay)
    ensures |r.answers| == n
    decreases n
  {
    if n == 0 then Replay(reg, [])
    else
      var a := Query(reg, url);
      var rest := QueryTimes(a.registry, url, n - 1);
      Replay(rest.registry, [a.retry] + rest.answers)
  }

  /** The i-th of n consecutive queries (counting from 0) answers "retry"
      exactly when fewer than 10 queries preceded it; after them the count
      has grown by n and no other URL moved. */
  lemma {:induction false} QueryTimesAnswers(reg: Registry, url: string, n: nat)
    ensures Count(QueryTimes(reg, url, n).registry, url) == Count(reg, url) + n
    ensures forall u :: u != url ==> Count(QueryTimes(reg, url, n).registry, u) == Count(reg, u)
    ensures forall i :: 0 <= i < n ==>
              (QueryTimes(reg, url, n).answers[i] <==> Count(reg, url) + i < TimesLimitRetry)
    decreases n
  {
    if n > 0 {
      var a := Query(reg, url);
      QueryTimesAnswers(a.registry, url, n - 1);
      var r := QueryTimes(reg, url, n);
      var rest := QueryTimes(a.registry, url, n - 1);
      assert r.answers == [a.retry] + rest.answers;
      forall i | 0 <= i < n
        ensures r.answers[i] <==> Count(reg, url) + i < TimesLimitRetry
      {
        if i > 0 {
          assert r.answers[i] == rest.answers[i - 1];
        }
      }
    }
  }

  /** For a URL never seen before, queries 1 to 10 answer "retry" and the
      11th and every later one answer "give up". */
  lemma FreshUrlRetriesTenTimes(reg: Registry, url: string, n: nat)
    requires url !in reg
    ensures forall i :: 0 <= i < n ==> (QueryTimes(reg, url, n).answers[i] <==> i < 10)
  {
    QueryTimesAnswers(reg, url, n);
  }

  /** Once a URL has given up, it gives up for good. */
  lemma GivingUpIsPermanent(reg: Registry, url: string, n: nat)
    requires !Query(reg, url).retry
    ensures forall i :: 0 <= i < n ==> !QueryTimes(reg, url, n).answers[i]
  {
    QueryTimesAnswers(reg, url, n);
  }
}
