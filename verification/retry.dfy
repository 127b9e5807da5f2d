/**
 * The two retry policies used when talking to the media-hosting service.
 *
 * The service is modelled by its answers: `answers(k)` is the outcome of the
 * k-th call (counting from 0) made by one invocation of a retry procedure.
 * Sleeping is not performed; the delays waited before each retry are
 * recorded instead.
 */
module Retry {
  import opened Common

  /** Why one external call failed: the error code and, when the service answered, its description. */
  datatype CallError = CallError(code: string, description: string)

  /** The outcome of one external call. */
  datatype Attempt<T> = Succeeded(value: T) | Failed(error: CallError)

  type Answers<T> = nat -> Attempt<T>

  /** `getTelegramFilePath`: at most three attempts, waiting 1000·k ms after the k-th failure. */
  const MaxAttempts: nat := 3
  const BackoffUnitMs: nat := 1000

  /** `fetchWithRetry` defaults: two retries after the first call, 750 ms apart. */
  const DefaultRetries: nat := 2
  const DefaultDelayMs: nat := 750

  /** What a call to `getTelegramFilePath` yields: the path (or null), how many calls it made, and the waits. */
  datatype ResolveRun<T> = ResolveRun(path: Option<T>, calls: nat, delays: seq<nat>)

  /**
   * The loop of `getTelegramFilePath` entered with `retryCount` earlier
   * failures. Every error is retried the same way; after the failure of the
   * last allowed attempt the result is null and there is no further wait.
   */
  function ResolveFrom<T>(answers: Answers<T>, retryCount: nat): (run: ResolveRun<T>)
    requires retryCount < MaxAttempts
    ensures retryCount < run.calls <= MaxAttempts
    ensures |run.delays| == run.calls - 1 - retryCount
    ensures forall j :: 0 <= j < |run.delays| ==> run.delays[j] == BackoffUnitMs * (retryCount + j + 1)
    ensures forall k :: retryCount <= k < run.calls - 1 ==> answers(k).Failed?
    ensures run.path.Some? ==> answers(run.calls - 1) == Succeeded(run.path.value)
    ensures run.path.None? ==> run.calls == MaxAttempts && answers(MaxAttempts - 1).Failed?
    decreases MaxAttempts - retryCount
  {
    match answers(retryCount)
    case Succeeded(p) => ResolveRun(Some(p), retryCount + 1, [])
    case Failed(_) =>
      if retryCount == MaxAttempts - 1 then ResolveRun(None, retryCount + 1, [])
      else
        var rest := ResolveFrom(answers, retryCount + 1);
        rest.(delays := [BackoffUnitMs * (retryCount + 1)] + rest.delays)
  }

  /** `getTelegramFilePath(fileId)` against a service that gives `answers`. */
  function GetTelegramFilePath<T>(answers: Answers<T>): ResolveRun<T> {
    ResolveFrom(answers, 0)
  }

  /** Some call among the first `n` succeeds. */
  predicate SucceedsWithin<T>(answers: Answers<T>, n: nat) {
    exists k :: 0 <= k < n && answers(k).Succeeded?
  }

  predicate StrictlyIncreasing(s: seq<nat>) {
    forall i, j :: 0 <= i < j < |s| ==> s[i] < s[j]
  }

  /**
   * The whole contract of `getTelegramFilePath`: at most three calls; the
   * path of the first success; null exactly when all three calls fail; the
   * waits are 1000, 2000, ... ms, one after each failure but the last, so
   * they strictly increase.
   */
  lemma GetTelegramFilePathSpec<T>(answers: Answers<T>)
    ensures var run := GetTelegramFilePath(answers);
      && 1 <= run.calls <= MaxAttempts
      && (run.path.Some? <==> SucceedsWithin(answers, MaxAttempts))
      && (run.path.Some? ==> answers(run.calls - 1) == Succeeded(run.path.value)
                             && !SucceedsWithin(answers, run.calls - 1))
      && (run.path.None? ==> run.calls == MaxAttempts)
      && |run.delays| == run.calls - 1
      && (forall j :: 0 <= j < |run.delays| ==> run.delays[j] == BackoffUnitMs * (j + 1))
      && StrictlyIncreasing(run.delays)
  {
    var run := GetTelegramFilePath(answers);
    if run.path.None? {
      assert forall k :: 0 <= k < MaxAttempts ==> answers(k).Failed? by {
        forall k | 0 <= k < MaxAttempts ensures answers(k).Failed? {
          if k < run.calls - 1 {} else {}
        }
      }
    }
  }

  /** Two failures and then a success: three calls, waits of 1 s and 2 s, and the success is returned. */
  lemma FailTwiceThenSucceed(path: string, e: CallError)
    ensures var run := GetTelegramFilePath((k: nat) => if k < 2 then Failed(e) else Succeeded(path));
      run == ResolveRun(Some(path), 3, [1000, 2000])
  {
  }

  /** What `fetchWithRetry` yields: the response or the rethrown error, the number of calls and the waits. */
  datatype FetchRun<T> = FetchRun(result: Attempt<T>, calls: nat, delays: seq<nat>)

  /**
   * `fetchWithRetry(url, options, retries, delay, attempt)` where `call` is
   * the index of the call this invocation makes (`attempt - 1`). On an error
   * with no retries left the error is rethrown; otherwise it waits `delay`
   * and recurses with one retry fewer.
   */
  function FetchFrom<T>(answers: Answers<T>, retries: nat, delay: nat, call: nat): (run: FetchRun<T>)
    ensures 1 <= run.calls <= retries + 1
    ensures |run.delays| == run.calls - 1
    ensures forall j :: 0 <= j < |run.delays| ==> run.delays[j] == delay
    ensures forall k :: call <= k < call + run.calls - 1 ==> answers(k).Failed?
    ensures run.result == answers(call + run.calls - 1)
    ensures run.result.Failed? ==> run.calls == retries + 1
    decreases retries
  {
    match answers(call)
    case Succeeded(v) => FetchRun(Succeeded(v), 1, [])
    case Failed(e) =>
      if retries == 0 then FetchRun(Failed(e), 1, [])
      else
        var rest := FetchFrom(answers, retries - 1, delay, call + 1);
        FetchRun(rest.result, rest.calls + 1, [delay] + rest.delays)
  }

  /** `fetchWithRetry` as called from a handler: first attempt, given retry count and delay. */
  function FetchWithRetry<T>(answers: Answers<T>, retries: nat, delay: nat): FetchRun<T> {
    FetchFrom(answers, retries, delay, 0)
  }

  /**
   * The contract of `fetchWithRetry`: at most `retries + 1` calls with the
   * fixed `delay` between them; the first success is returned; if every
   * call fails, the last call's error is rethrown.
   */
  lemma FetchWithRetrySpec<T>(answers: Answers<T>, retries: nat, delay: nat)
    ensures var run := FetchWithRetry(answers, retries, delay);
      && 1 <= run.calls <= retries + 1
      && (run.result.Succeeded? <==> SucceedsWithin(answers, retries + 1))
      && (run.result.Succeeded? ==> answers(run.calls - 1) == run.result
                                    && !SucceedsWithin(answers, run.calls - 1))
      && (run.result.Failed? ==> run.calls == retries + 1 && run.result == answers(retries))
      && run.delays == seq(run.calls - 1, _ => delay)
  {
    var run := FetchWithRetry(answers, retries, delay);
    if run.result.Failed? {
      assert forall k :: 0 <= k < retries + 1 ==> answers(k).Failed? by {
        forall k | 0 <= k < retries + 1 ensures answers(k).Failed? {
          if k < run.calls - 1 {} else {}
        }
      }
    }
  }
}
