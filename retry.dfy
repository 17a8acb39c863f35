/**
 * `get_mongo_client`, written identically in the loader and the traffic
 * generator: up to ten connection attempts, sleeping `5·n` seconds after the
 * `n`-th failure, then giving up with an exception. Whether each attempt's
 * `ping` succeeds is a parameter.
 */
module Retry {

  const MaxRetries := 10

  /** How the connection loop ends: connected on the given attempt (from 1), or the final exception. */
  datatype Connection = Connected(attempt: nat) | GaveUp

  /** The attempt numbered `k` from 0 succeeds: it is listed and true. */
  predicate Succeeds(attempts: seq<bool>, k: nat) {
    k < |attempts| && attempts[k]
  }

  /** The sleeps after the first `n` failures: 5, 10, …, 5·n seconds. */
  function Backoff(n: nat): (waits: seq<nat>)
    ensures |waits| == n
    ensures forall k :: 0 <= k < n ==> waits[k] == 5 * (k + 1)
  {
    if n == 0 then [] else Backoff(n - 1) + [5 * n]
  }

  function Total(waits: seq<nat>): nat {
    if waits == [] then 0 else Total(waits[..|waits| - 1]) + waits[|waits| - 1]
  }

  /** The retry loop, returning how it ended and the sleeps it took. */
  method GetMongoClient(attempts: seq<bool>) returns (result: Connection, waits: seq<nat>)
    ensures result.GaveUp? <==> forall k :: 0 <= k < MaxRetries ==> !Succeeds(attempts, k)
    ensures result.Connected? ==>
      && 1 <= result.attempt <= MaxRetries
      && Succeeds(attempts, result.attempt - 1)
      && (forall k :: 0 <= k < result.attempt - 1 ==> !Succeeds(attempts, k))
      && waits == Backoff(result.attempt - 1)
    ensures result.GaveUp? ==> waits == Backoff(MaxRetries)
  {
    var retryCount := 0;
    waits := [];
    while retryCount < MaxRetries
      invariant 0 <= retryCount <= MaxRetries
      invariant forall k :: 0 <= k < retryCount ==> !Succeeds(attempts, k)
      invariant waits == Backoff(retryCount)
    {
      if Succeeds(attempts, retryCount) {
        return Connected(retryCount + 1), waits;
      }
      retryCount := retryCount + 1;
      var waitTime := retryCount * 5;
      waits := waits + [waitTime];
    }
    result := GaveUp;
  }

  /** One more failure adds a sleep of `5·n` seconds. */
  lemma BackoffStep(n: nat)
    requires n > 0
    ensures Total(Backoff(n)) == Total(Backoff(n - 1)) + 5 * n
  {
    assert Backoff(n)[..n - 1] == Backoff(n - 1);
  }

  /** The sleeps before the `n`-th failure add up to `5·n(n+1)/2` seconds. */
  lemma {:induction false} BackoffTotal(n: nat)
    ensures 2 * Total(Backoff(n)) == 5 * n * (n + 1)
  {
    if n > 0 {
      BackoffTotal(n - 1);
      BackoffStep(n);
      Distribute(n);
    }
  }

  lemma Distribute(n: int)
    ensures 5 * (n - 1) * n + 10 * n == 5 * n * (n + 1)
  {
  }

  /** Giving up takes 275 seconds of sleeping. */
  lemma GiveUpAfter275Seconds()
    ensures Total(Backoff(MaxRetries)) == 275
  {
    BackoffTotal(MaxRetries);
  }
}
