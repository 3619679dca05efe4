/** `retryApiCall`, the exponential-backoff wrapper around every text
    generation call, in its two variants: srv.js gives up at once on an
    HTTP 429 (quota) error, serveur.js retries every failure alike.

    The awaited call is an oracle: `outcomes[i]` is what the (i+1)-th
    attempt does. Timers are not run; the waits are returned in order. */
module Retry {
  import opened Common

  /** The fields of a thrown SDK error the wrapper and the routes read. */
  datatype CallError = CallError(status: Option<int>, message: string)

  datatype Attempt<T> = Succeeded(value: T) | Threw(error: CallError)

  datatype RetryPolicy =
    | AbortOnQuota       // srv.js
    | RetryEveryFailure  // serveur.js

  /** How the wrapper's promise settles. `FellThrough` is the loop never
      running (`maxRetries <= 0`): the function resolves to `undefined`. */
  datatype Settled<T> = Returned(value: T) | Rethrown(error: CallError) | FellThrough

  datatype Run<T> = Run(settled: Settled<T>, calls: nat, delays: seq<int>)

  const QuotaStatus: int := 429
  const DefaultMaxRetries: int := 3

  predicate IsQuota(e: CallError)
  {
    e.status == Some(QuotaStatus)
  }

  /** A failure after which the policy stops retrying whatever is left. */
  predicate GivesUp(policy: RetryPolicy, e: CallError)
  {
    policy == AbortOnQuota && IsQuota(e)
  }

  /** `Math.pow(2, i) * 1000` ms, waited after the failed attempt `i`. */
  function Backoff(i: nat): int
  {
    Pow2(i) * 1000
  }

  /** The loop from attempt `i` (0-based) on. */
  function RetryFrom<T>(policy: RetryPolicy, maxRetries: nat, outcomes: seq<Attempt<T>>, i: nat): (r: Run<T>)
    requires i < maxRetries <= |outcomes|
    ensures i < r.calls <= maxRetries
    ensures |r.delays| == r.calls - 1 - i
    ensures forall j :: 0 <= j < |r.delays| ==> r.delays[j] == Backoff(i + j)
    ensures forall j :: i <= j < r.calls - 1 ==>
      outcomes[j].Threw? && !GivesUp(policy, outcomes[j].error)
    ensures r.settled.Returned? <==> outcomes[r.calls - 1].Succeeded?
    ensures r.settled.Returned? ==> r.settled.value == outcomes[r.calls - 1].value
    ensures r.settled.Rethrown? ==>
      && outcomes[r.calls - 1] == Threw(r.settled.error)
      && (GivesUp(policy, r.settled.error) || r.calls == maxRetries)
    ensures !r.settled.FellThrough?
    decreases maxRetries - i
  {
    match outcomes[i]
    case Succeeded(v) => Run(Returned(v), i + 1, [])
    case Threw(e) =>
      if GivesUp(policy, e) || i == maxRetries - 1 then Run(Rethrown(e), i + 1, [])
      else
        var rest := RetryFrom(policy, maxRetries, outcomes, i + 1);
        Run(rest.settled, rest.calls, [Backoff(i)] + rest.delays)
  }

  /** `retryApiCall(apiCall, maxRetries)`: at most `maxRetries` calls; the
      first success is returned; a failure is rethrown when it is the last
      allowed attempt or, under `AbortOnQuota`, a 429; every other failure
      is followed by a wait of 1000, 2000, 4000 … ms. */
  function RetryApiCall<T>(policy: RetryPolicy, maxRetries: int, outcomes: seq<Attempt<T>>): (r: Run<T>)
    requires maxRetries <= |outcomes|
    ensures maxRetries <= 0 <==> r.settled.FellThrough?
    ensures maxRetries <= 0 ==> r.calls == 0 && r.delays == []
    ensures maxRetries > 0 ==>
      && 0 < r.calls <= maxRetries
      && |r.delays| == r.calls - 1
      && (forall j :: 0 <= j < |r.delays| ==> r.delays[j] == Backoff(j))
      && (forall j :: 0 <= j < r.calls - 1 ==> outcomes[j].Threw? && !GivesUp(policy, outcomes[j].error))
      && (r.settled.Returned? <==> outcomes[r.calls - 1].Succeeded?)
      && (r.settled.Returned? ==> r.settled.value == outcomes[r.calls - 1].value)
      && (r.settled.Rethrown? ==>
            outcomes[r.calls - 1] == Threw(r.settled.error)
            && (GivesUp(policy, r.settled.error) || r.calls == maxRetries))
  {
    if maxRetries <= 0 then Run(FellThrough, 0, [])
    else RetryFrom(policy, maxRetries, outcomes, 0)
  }

  /** The two variants differ only on a 429: without one among the allowed
      attempts they make the same calls, waits and result. */
  lemma {:induction false} PoliciesAgreeWithoutQuotaFrom<T>(maxRetries: nat, outcomes: seq<Attempt<T>>, i: nat)
    requires i < maxRetries <= |outcomes|
    requires forall j :: i <= j < maxRetries && outcomes[j].Threw? ==> !IsQuota(outcomes[j].error)
    ensures RetryFrom(AbortOnQuota, maxRetries, outcomes, i) == RetryFrom(RetryEveryFailure, maxRetries, outcomes, i)
    decreases maxRetries - i
  {
    if i + 1 < maxRetries {
      PoliciesAgreeWithoutQuotaFrom(maxRetries, outcomes, i + 1);
    }
  }

  lemma PoliciesAgreeWithoutQuota<T>(maxRetries: int, outcomes: seq<Attempt<T>>)
    requires maxRetries <= |outcomes|
    requires forall j :: 0 <= j < maxRetries && outcomes[j].Threw? ==> !IsQuota(outcomes[j].error)
    ensures RetryApiCall(AbortOnQuota, maxRetries, outcomes) == RetryApiCall(RetryEveryFailure, maxRetries, outcomes)
  {
    if maxRetries > 0 {
      PoliciesAgreeWithoutQuotaFrom(maxRetries, outcomes, 0);
    }
  }

  lemma {:induction false} BackoffSum(n: nat)
    ensures SumInts(seq(n, j requires 0 <= j => Backoff(j))) == (Pow2(n) - 1) * 1000
  {
    if n > 0 {
      var s := seq(n, j requires 0 <= j => Backoff(j));
      var s' := seq(n - 1, j requires 0 <= j => Backoff(j));
      BackoffSum(n - 1);
      SumIntsSnoc(s', Backoff(n - 1));
      assert s == s' + [Backoff(n - 1)];
    }
  }

  lemma {:induction false} SumIntsSnoc(xs: seq<int>, x: int)
    ensures SumInts(xs + [x]) == SumInts(xs) + x
    decreases |xs|
  {
    if xs != [] {
      assert (xs + [x])[1..] == xs[1..] + [x];
      SumIntsSnoc(xs[1..], x);
    }
  }

  /** The time spent waiting: (2^(calls-1) - 1) seconds, 3 s at most with
      the default of three attempts. */
  lemma TotalWait<T>(policy: RetryPolicy, maxRetries: int, outcomes: seq<Attempt<T>>)
    requires 0 < maxRetries <= |outcomes|
    ensures var r := RetryApiCall(policy, maxRetries, outcomes);
      SumInts(r.delays) == (Pow2(r.calls - 1) - 1) * 1000
    ensures maxRetries == DefaultMaxRetries ==>
      SumInts(RetryApiCall(policy, maxRetries, outcomes).delays) <= 3000
  {
    var r := RetryApiCall(policy, maxRetries, outcomes);
    assert r.delays == seq(r.calls - 1, j requires 0 <= j => Backoff(j));
    BackoffSum(r.calls - 1);
    if maxRetries == DefaultMaxRetries {
      assert r.calls - 1 <= 2;
      assert Pow2(r.calls - 1) <= 4 by {
        if r.calls - 1 == 2 { assert Pow2(2) == 4; }
        else if r.calls - 1 == 1 { assert Pow2(1) == 2; }
      }
    }
  }

  /** srv.js: a quota error on the first attempt ends the call at once,
      where serveur.js would go on through every allowed attempt. */
  lemma QuotaOnFirstAttempt<T>(maxRetries: int, outcomes: seq<Attempt<T>>, e: CallError)
    requires 0 < maxRetries <= |outcomes|
    requires outcomes[0] == Threw(e) && IsQuota(e)
    ensures RetryApiCall(AbortOnQuota, maxRetries, outcomes) == Run(Rethrown(e), 1, [])
    ensures (forall j :: 0 <= j < maxRetries ==> outcomes[j] == Threw(e)) ==>
      RetryApiCall(RetryEveryFailure, maxRetries, outcomes).calls == maxRetries
  {
  }
}
