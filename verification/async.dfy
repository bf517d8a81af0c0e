/** The promise plumbing around each model call: a deadline race and two
    retry loops. Time is abstract: a promise is described by the moment it
    settles and by how it settles, and a retry run by the calls it makes and
    the pauses it takes between them. */
module Async {
  import opened Js

  datatype Settled<T> = Resolved(value: T) | Rejected(error: JsError)

  /** A promise that settles `at` milliseconds after it is created */
  datatype Timed<T> = Timed(at: nat, outcome: Settled<T>)

  /** `Operation timed out after ${timeoutMs}ms` */
  function TimeoutMessage(ms: nat): (m: string)
    ensures |m| == 28 + |NatToString(ms)|
    ensures m[..26] == "Operation timed out after "
    ensures m[|m| - 2..] == "ms"
  {
    "Operation timed out after " + NatToString(ms) + "ms"
  }

  /** The error the timer rejects with: a plain `new Error(...)` */
  function TimeoutError(ms: nat): JsError {
    JsError("Error", TimeoutMessage(ms))
  }

  /** `withTimeout(promise, ms)`: `Promise.race` between the promise and a timer
      that rejects after ms. The promise wins only when it settles strictly
      before the timer fires. */
  function WithTimeout<T>(p: Timed<T>, ms: nat): (r: Timed<T>)
    ensures r.at <= ms && r.at <= p.at
    ensures p.at < ms ==> r == p
    ensures p.at >= ms ==> r == Timed(ms, Rejected(TimeoutError(ms)))
  {
    if p.at < ms then p else Timed(ms, Rejected(TimeoutError(ms)))
  }

  /** The message of every timer rejection says it timed out, at index 10 */
  lemma TimeoutMessageSaysTimedOut(ms: nat)
    ensures At(TimeoutMessage(ms), 10, "timed out")
    ensures Contains(TimeoutMessage(ms), "timed out")
  {
    var m := TimeoutMessage(ms);
    assert m[..26] == "Operation timed out after ";
    forall d | 0 <= d < 9 ensures m[10 + d] == "timed out"[d] {
      assert m[10 + d] == m[..26][10 + d];
    }
    assert At(m, 10, "timed out");
  }

  /** Every rejection WithTimeout adds, as opposed to passing through, is the
      timer's */
  lemma WithTimeoutOwnRejection<T>(p: Timed<T>, ms: nat)
    requires WithTimeout(p, ms).outcome != p.outcome
    ensures WithTimeout(p, ms).outcome == Rejected(TimeoutError(ms))
    ensures p.at >= ms
  {
  }

  /** Racing twice against the same or a later deadline changes nothing:
      the inner race already settled no later than the inner deadline */
  lemma WithTimeoutNested<T>(p: Timed<T>, inner: nat, outer: nat)
    requires inner <= outer
    ensures WithTimeout(WithTimeout(p, inner), outer) == WithTimeout(p, inner)
  {
  }

  /** How a retry loop spaces its attempts */
  datatype Backoff =
    | Linear(delay: real)     // retryOperation: waits delay * attempt
    | Geometric(delay: real)  // retryWithDelay: waits delay, then multiplies it by 1.5

  function Pow(b: real, n: nat): real {
    if n == 0 then 1.0 else b * Pow(b, n - 1)
  }

  /** The pause after the failed attempt number `attempt` (counted from 1) */
  function Wait(b: Backoff, attempt: nat): real
    requires attempt >= 1
  {
    match b
    case Linear(d) => d * attempt as real
    case Geometric(d) => d * Pow(1.5, attempt - 1)
  }

  /** What a retry loop leaves behind: its result (None for the `undefined` a
      loop with no iteration resolves to), the number of calls it made, the
      pauses it took, and the time it spent */
  datatype Run<T> = Run(result: Option<Settled<T>>, calls: nat, waits: seq<real>, elapsed: real)

  /** Every attempt before `n` failed */
  predicate AllRejected<T>(attempts: seq<Timed<T>>, n: nat)
    requires n <= |attempts|
  {
    forall i :: 0 <= i < n ==> attempts[i].outcome.Rejected?
  }

  /** The time spent on the first n attempts */
  function Spent<T>(attempts: seq<Timed<T>>, n: nat): real
    requires n <= |attempts|
  {
    if n == 0 then 0.0 else Spent(attempts, n - 1) + attempts[n - 1].at as real
  }

  function Sum(xs: seq<real>): real {
    if |xs| == 0 then 0.0 else Sum(xs[..|xs| - 1]) + xs[|xs| - 1]
  }

  /** `for (let attempt = 1; attempt <= maxRetries; attempt++) { try { return
      await fn(); } catch (e) { if (attempt === maxRetries) throw e; wait } }`,
      from the attempt numbered `attempt` on; attempts[i] is the call made on
      attempt i + 1 */
  function RetryFrom<T>(attempts: seq<Timed<T>>, maxRetries: int, b: Backoff, attempt: nat): (r: Run<T>)
    requires 1 <= attempt && maxRetries <= |attempts|
    ensures r.calls <= if maxRetries >= attempt then maxRetries - attempt + 1 else 0
    ensures (r.calls == 0) == (r.result.None?) == (maxRetries < attempt)
    ensures r.calls > 0 ==> |r.waits| == r.calls - 1
    ensures forall i :: 0 <= i < |r.waits| ==> r.waits[i] == Wait(b, attempt + i)
    ensures r.calls > 0 ==> attempt - 1 + r.calls <= |attempts|
    ensures r.calls > 0 ==> r.result == Some(attempts[attempt - 2 + r.calls].outcome)
    ensures r.calls > 0 ==> forall i :: attempt - 1 <= i < attempt - 2 + r.calls ==> attempts[i].outcome.Rejected?
    ensures r.result.Some? && r.result.value.Rejected? ==> attempt - 1 + r.calls == maxRetries
    decreases maxRetries - attempt + 1
  {
    if attempt > maxRetries then Run(None, 0, [], 0.0)
    else
      var a := attempts[attempt - 1];
      match a.outcome
      case Resolved(v) => Run(Some(a.outcome), 1, [], a.at as real)
      case Rejected(e) =>
        if attempt == maxRetries then Run(Some(a.outcome), 1, [], a.at as real)
        else
          var w := Wait(b, attempt);
          var rest := RetryFrom(attempts, maxRetries, b, attempt + 1);
          Run(rest.result, rest.calls + 1, [w] + rest.waits, a.at as real + w + rest.elapsed)
  }

  /** A whole retry loop. The first success is returned; when every one of
      the maxRetries attempts fails, the last error is rethrown; with
      maxRetries below 1 no call is made and the loop resolves to undefined. */
  function Retry<T>(attempts: seq<Timed<T>>, maxRetries: int, b: Backoff): (r: Run<T>)
    requires maxRetries <= |attempts|
    ensures r.result.None? <==> maxRetries < 1
    ensures r.calls <= if maxRetries > 0 then maxRetries else 0
    ensures r.result.Some? ==> r.calls >= 1 && r.result.value == attempts[r.calls - 1].outcome
    ensures r.result.Some? ==> AllRejected(attempts, r.calls - 1)
    ensures r.result.Some? && r.result.value.Rejected? ==> r.calls == maxRetries && AllRejected(attempts, maxRetries)
    ensures r.calls > 0 ==> |r.waits| == r.calls - 1
    ensures forall i :: 0 <= i < |r.waits| ==> r.waits[i] == Wait(b, i + 1)
  {
    RetryFrom(attempts, maxRetries, b, 1)
  }

  /** The retry loop, stated without recursion: the result is the outcome of
      the first successful attempt among the first maxRetries, or the error
      of the last one when none succeeds */
  lemma RetryMeetsReference<T>(attempts: seq<Timed<T>>, maxRetries: int, b: Backoff, k: nat)
    requires 1 <= maxRetries <= |attempts|
    requires k < maxRetries
    ensures AllRejected(attempts, k) && attempts[k].outcome.Resolved? ==>
      Retry(attempts, maxRetries, b).result == Some(attempts[k].outcome)
      && Retry(attempts, maxRetries, b).calls == k + 1
    ensures AllRejected(attempts, maxRetries) ==>
      Retry(attempts, maxRetries, b).result == Some(attempts[maxRetries - 1].outcome)
      && Retry(attempts, maxRetries, b).calls == maxRetries
  {
  }

  /** The time a run spends is the time of its calls plus its pauses */
  lemma {:induction false} RetryElapsed<T>(attempts: seq<Timed<T>>, maxRetries: int, b: Backoff, attempt: nat)
    requires 1 <= attempt && maxRetries <= |attempts| && attempt - 1 <= |attempts|
    ensures var r := RetryFrom(attempts, maxRetries, b, attempt);
      r.elapsed == Spent(attempts, attempt - 1 + r.calls) - Spent(attempts, attempt - 1) + Sum(r.waits)
    decreases maxRetries - attempt + 1
  {
    if attempt <= maxRetries && attempts[attempt - 1].outcome.Rejected? && attempt != maxRetries {
      RetryElapsed(attempts, maxRetries, b, attempt + 1);
      RetryElapsedStep(attempts, maxRetries, b, attempt);
    } else {
      RetryElapsedLast(attempts, maxRetries, b, attempt);
    }
  }

  lemma RetryElapsedLast<T>(attempts: seq<Timed<T>>, maxRetries: int, b: Backoff, attempt: nat)
    requires 1 <= attempt && maxRetries <= |attempts| && attempt - 1 <= |attempts|
    requires attempt <= maxRetries ==> attempts[attempt - 1].outcome.Resolved? || attempt == maxRetries
    ensures var r := RetryFrom(attempts, maxRetries, b, attempt);
      r.elapsed == Spent(attempts, attempt - 1 + r.calls) - Spent(attempts, attempt - 1) + Sum(r.waits)
  {
    assert Sum([]) == 0.0;
  }

  lemma RetryElapsedStep<T>(attempts: seq<Timed<T>>, maxRetries: int, b: Backoff, attempt: nat)
    requires 1 <= attempt < maxRetries <= |attempts|
    requires attempts[attempt - 1].outcome.Rejected?
    requires var rest := RetryFrom(attempts, maxRetries, b, attempt + 1);
      rest.elapsed == Spent(attempts, attempt + rest.calls) - Spent(attempts, attempt) + Sum(rest.waits)
    ensures var r := RetryFrom(attempts, maxRetries, b, attempt);
      r.elapsed == Spent(attempts, attempt - 1 + r.calls) - Spent(attempts, attempt - 1) + Sum(r.waits)
  {
    var a := attempts[attempt - 1];
    var w := Wait(b, attempt);
    var rest := RetryFrom(attempts, maxRetries, b, attempt + 1);
    var r := RetryFrom(attempts, maxRetries, b, attempt);
    assert r == Run(rest.result, rest.calls + 1, [w] + rest.waits, a.at as real + w + rest.elapsed);
    SumCons(w, rest.waits);
    assert Spent(attempts, attempt) == Spent(attempts, attempt - 1) + a.at as real;
  }

  lemma {:induction false} SumCons(x: real, xs: seq<real>)
    ensures Sum([x] + xs) == x + Sum(xs)
    decreases |xs|
  {
    if |xs| > 0 {
      var ys := [x] + xs;
      assert ys[..|ys| - 1] == [x] + xs[..|xs| - 1];
      SumCons(x, xs[..|xs| - 1]);
    }
  }

  /** With linear backoff, a run that made k calls paused
      delay * (1 + 2 + ... + (k - 1)) = delay * k(k-1)/2 in total */
  lemma {:induction false} LinearWaitTotal<T>(attempts: seq<Timed<T>>, maxRetries: int, delay: real)
    requires maxRetries <= |attempts|
    ensures var r := Retry(attempts, maxRetries, Linear(delay));
      r.calls > 0 ==> Sum(r.waits) == delay * (r.calls * (r.calls - 1)) as real / 2.0
  {
    var r := Retry(attempts, maxRetries, Linear(delay));
    if r.calls > 0 {
      LinearSum(r.waits, delay);
      assert |r.waits| * (|r.waits| + 1) == r.calls * (r.calls - 1);
    }
  }

  lemma {:induction false} LinearSum(ws: seq<real>, delay: real)
    requires forall i :: 0 <= i < |ws| ==> ws[i] == Wait(Linear(delay), i + 1)
    ensures Sum(ws) == delay * (|ws| * (|ws| + 1)) as real / 2.0
    decreases |ws|
  {
    if |ws| > 0 {
      var n := |ws|;
      LinearSum(ws[..n - 1], delay);
      assert ws[n - 1] == delay * n as real;
      var before := ((n - 1) * n) as real;
      assert before + 2.0 * n as real == (n * (n + 1)) as real by {
        assert (n - 1) * n + 2 * n == n * (n + 1);
      }
      assert delay * before / 2.0 + delay * n as real == delay * (before + 2.0 * n as real) / 2.0;
    }
  }

  /** With geometric backoff the pauses are delay, 1.5 delay, 2.25 delay, ...,
      so a run that made k calls paused 2 * delay * (1.5^(k-1) - 1) in total */
  lemma {:induction false} GeometricWaitTotal<T>(attempts: seq<Timed<T>>, maxRetries: int, delay: real)
    requires maxRetries <= |attempts|
    ensures var r := Retry(attempts, maxRetries, Geometric(delay));
      r.calls > 0 ==> Sum(r.waits) == 2.0 * delay * (Pow(1.5, r.calls - 1) - 1.0)
  {
    var r := Retry(attempts, maxRetries, Geometric(delay));
    if r.calls > 0 {
      GeometricSum(r.waits, delay);
    }
  }

  lemma {:induction false} GeometricSum(ws: seq<real>, delay: real)
    requires forall i :: 0 <= i < |ws| ==> ws[i] == Wait(Geometric(delay), i + 1)
    ensures Sum(ws) == 2.0 * delay * (Pow(1.5, |ws|) - 1.0)
    decreases |ws|
  {
    if |ws| > 0 {
      GeometricSum(ws[..|ws| - 1], delay);
    }
  }

  /** retryOperation's call site in the one-shot function: one attempt, so
      no pause, and the attempt's own outcome */
  lemma SingleAttempt<T>(attempts: seq<Timed<T>>)
    requires |attempts| >= 1
    ensures var r := Retry(attempts, 1, Linear(1000.0));
      r.result == Some(attempts[0].outcome) && r.calls == 1 && r.waits == []
      && r.elapsed == attempts[0].at as real
  {
  }

  /** retryWithDelay's call site in the HTML step: at most two calls, each
      raced against 15000 ms, and at most one pause of 1000 ms, so the step
      settles within 31000 ms */
  lemma TwoGuardedAttempts<T>(calls: seq<Timed<T>>)
    requires |calls| >= 2
    ensures var attempts := [WithTimeout(calls[0], 15000), WithTimeout(calls[1], 15000)];
      var r := Retry(attempts, 2, Geometric(1000.0));
      && 1 <= r.calls <= 2
      && r.waits == (if r.calls == 2 then [1000.0] else [])
      && r.elapsed <= 31000.0
  {
    var attempts := [WithTimeout(calls[0], 15000), WithTimeout(calls[1], 15000)];
    var r := Retry(attempts, 2, Geometric(1000.0));
    RetryElapsed(attempts, 2, Geometric(1000.0), 1);
    assert Wait(Geometric(1000.0), 1) == 1000.0;
    if r.calls == 2 {
      assert r.waits == [1000.0];
      assert Sum(r.waits) == 1000.0 by { assert r.waits[..0] == []; }
    }
    assert Spent(attempts, 2) <= 30000.0;
  }
}
