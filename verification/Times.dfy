/** Expiry times: milliseconds, 0 for never. */
module Times {
  /** The expiry of a link made at `now` with this time to live. */
  function ExpiryAt(now: int, ttl: int): int {
    if ttl > 0 then now + ttl else 0
  }

  /** The expiry after an update that may bring a new time to live. */
  function NewExpiry(e: int, now: int, ttl: int, hasTtl: bool): int {
    if hasTtl then ExpiryAt(now, ttl) else e
  }
}
