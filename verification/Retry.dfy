/** util/retry.go: a call repeated until it succeeds or has failed once more than
    the number of retries. */
module Retrying {

  const MAX_RETRIES := 10

  /** Whether a failed try is the last one. */
  predicate GivesUp(tries: nat) {
    tries > MAX_RETRIES
  }

  /** `fn(k)` is what the `k`-th call answers, counted from 1. The call is made
      until the first success and at most 11 times. */
  method Retry(fn: nat -> bool) returns (ok: bool, tries: nat)
    ensures 1 <= tries <= MAX_RETRIES + 1 && ok == fn(tries)
    ensures forall k | 1 <= k < tries :: !fn(k)
    ensures !ok ==> tries == MAX_RETRIES + 1
    ensures ok <==> exists k | 1 <= k <= MAX_RETRIES + 1 :: fn(k)
  {
    tries := 0;
    while true
      invariant 0 <= tries <= MAX_RETRIES && forall k | 1 <= k <= tries :: !fn(k)
      decreases MAX_RETRIES - tries
    {
      tries := tries + 1;
      ok := fn(tries);
      if ok || GivesUp(tries) {
        return;
      }
    }
  }
}
