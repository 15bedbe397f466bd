/** What all stores over the server share: keys that lapse, and writing calls that may fail. */
module Expiring {
  datatype Expiry = Never | At(instant: int)

  // A time to live of zero means none at all.
  function ExpiryOf(now: int, ttl: int): Expiry {
    if ttl == 0 then Never else At(now + ttl)
  }

  predicate Lapsed(expiry: Expiry, now: int) {
    expiry.At? && expiry.instant <= now
  }

  /** What is set with a time to live is gone exactly when that has passed; without one it stays. */
  lemma LapsesWhenPassed(now: int, ttl: int, later: int)
    ensures Lapsed(ExpiryOf(now, ttl), later) <==> ttl != 0 && later - now >= ttl
  {
  }

  /** What a writing call does: Lost changes nothing, and Unconfirmed changes although the caller sees an error. */
  datatype WriteReply = Done | Lost | Unconfirmed
}
