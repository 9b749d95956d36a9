/** The delay before a failed outbox row is due again, which both outboxes share. */
module Backoff {
  function Pow2(n: nat): nat {
    if n == 0 then 1 else 2 * Pow2(n - 1)
  }

  function NextBackoffMs(attempts: nat): nat {
    5000 * Pow2(attempts)
  }

  /** Five seconds, doubled with every attempt. */
  lemma BackoffDoubles(attempts: nat)
    ensures NextBackoffMs(0) == 5000
    ensures NextBackoffMs(attempts + 1) == 2 * NextBackoffMs(attempts)
  {}
}
