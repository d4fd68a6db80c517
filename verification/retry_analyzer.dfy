/** `RetryAnalyzer`: lets TestNG re-run a failed test at most three times. */
module RetryAnalyzer {

  const MaxRetryCount: nat := 3

  datatype RetryAnalyzer = RetryAnalyzer(retryCount: nat)

  function NewRetryAnalyzer(): (a: RetryAnalyzer)
    ensures a.retryCount == 0
  {
    RetryAnalyzer(0)
  }

  /** The counter never passes the limit. */
  predicate Valid(a: RetryAnalyzer) {
    a.retryCount <= MaxRetryCount
  }

  /** `retry`: answers "retry" while fewer than three retries were granted, counting each one granted. */
  function Retry(a: RetryAnalyzer): (r: (RetryAnalyzer, bool))
    ensures r.1 <==> a.retryCount < 3
    ensures r.1 ==> r.0.retryCount == a.retryCount + 1
    ensures !r.1 ==> r.0 == a
    ensures Valid(a) ==> Valid(r.0)
  {
    if a.retryCount < MaxRetryCount then (RetryAnalyzer(a.retryCount + 1), true) else (a, false)
  }

  /** The answers to `n` consecutive calls, and the analyzer afterwards. */
  function Calls(a: RetryAnalyzer, n: nat): (r: (RetryAnalyzer, seq<bool>))
    ensures |r.1| == n
    decreases n
  {
    if n == 0 then (a, [])
    else
      var (a', answer) := Retry(a);
      var (last, rest) := Calls(a', n - 1);
      (last, [answer] + rest)
  }

  /** From any valid state, call i answers "retry" exactly while count + i is below the limit. */
  lemma {:induction false} CallsAnswer(a: RetryAnalyzer, n: nat)
    requires Valid(a)
    ensures forall i :: 0 <= i < n ==> (Calls(a, n).1[i] <==> a.retryCount + i < 3)
    ensures Calls(a, n).0.retryCount == if a.retryCount + n < 3 then a.retryCount + n else 3
    decreases n
  {
    if n > 0 {
      var (a', answer) := Retry(a);
      CallsAnswer(a', n - 1);
      var rest := Calls(a', n - 1).1;
      assert Calls(a, n).1 == [answer] + rest;
      forall i | 1 <= i < n ensures (Calls(a, n).1[i] <==> a.retryCount + i < 3) {
        assert Calls(a, n).1[i] == rest[i - 1];
      }
    }
  }

  /** A fresh analyzer grants the first three retries and refuses every later one. */
  lemma FreshAnalyzerGrantsThree(n: nat)
    ensures forall i :: 0 <= i < n ==> (Calls(NewRetryAnalyzer(), n).1[i] <==> i < 3)
    ensures Calls(NewRetryAnalyzer(), n).0.retryCount == if n < 3 then n else 3
  {
    CallsAnswer(NewRetryAnalyzer(), n);
  }
}
