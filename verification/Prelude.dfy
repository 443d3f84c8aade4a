/** Option, the Redis keyspace with deadlines, and the identifiers every service shares. */
module Prelude {

  datatype Option<+T> = None | Some(value: T)

  /** Time is a whole number of seconds; identifiers stand for the random UUIDs of the service. */
  type AdminId = nat
  type SessionId = nat

  /** One key of the store: a value that is gone once the clock reaches its deadline. */
  datatype Entry<+V> = Entry(value: V, deadline: int)

  /** A key is held while the clock is strictly before its deadline (TTL > 0). */
  predicate Held<K, V>(m: map<K, Entry<V>>, k: K, now: int) {
    k in m && now < m[k].deadline
  }

  function Max(a: int, b: int): int { if a < b then b else a }

  /** Places in increasing order. */
  predicate Rising(at: seq<nat>) { forall i, j :: 0 <= i < j < |at| ==> at[i] < at[j] }
}

/** The environment's lifetimes and thresholds, all declared positive (src/config/env.ts:87-99). */
module Settings {
  datatype Config = Config(
    idleTtl: nat,
    absoluteTtl: nat,
    accessTtl: nat,
    maxAttempts: nat,
    lockSeconds: nat,
    mfaRequiredTier: nat)
  {
    predicate Valid() {
      0 < idleTtl && 0 < absoluteTtl && 0 < accessTtl && 0 < maxAttempts && 0 < lockSeconds
    }
  }
}
