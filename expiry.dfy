/**
 * The expiry stamp the adapter sends with every set and replace: the
 * absolute expiry time in seconds computed from the expiry policy's
 * duration for creation, or 0 ("never expires") for an eternal duration.
 */
module Expiry {
  import opened Java

  /**
   * A JSR-107 duration, already converted to milliseconds with
   * `timeUnit.toMillis(durationAmount)`; `Eternal` is the duration whose
   * `isEternal()` is true.
   */
  datatype Duration = Eternal | Millis(amount: Int64)

  /** The one part of an expiry policy the adapter consults. */
  datatype ExpiryPolicy = ExpiryPolicy(forCreation: Duration)

  /** `Duration.getAdjustedTime(now)`: `now + amount` in `long` arithmetic. */
  function AdjustedTime(d: Duration, now: Int64): Int64
  {
    match d
    case Eternal => LONG_MAX
    case Millis(amount) => WrapLong(now + amount)
  }

  /**
   * `getExpiredTimeStamp`: 0 for an eternal duration, otherwise the
   * adjusted time divided by 1000 and cast to `int`.
   */
  function ExpiredTimeStamp(d: Duration, now: Int64): Int32
  {
    if d.Eternal? then 0 else ToInt32(JavaDiv(AdjustedTime(d, now), 1000))
  }

  /**
   * While `now + duration` stays below 2^31 seconds (January 2038) the
   * stamp is exactly `(now + duration) / 1000` and positive or zero.
   */
  lemma StampInRange(amount: Int64, now: Int64)
    requires 0 <= amount && 0 <= now
    requires now + amount < 1000 * 0x8000_0000
    ensures ExpiredTimeStamp(Millis(amount), now) == (now + amount) / 1000
    ensures 0 <= ExpiredTimeStamp(Millis(amount), now)
  {
    assert AdjustedTime(Millis(amount), now) == now + amount;
    assert 0 <= (now + amount) / 1000 <= INT_MAX;
  }

  /** An eternal duration always yields the "never expires" stamp 0. */
  lemma EternalStamp(now: Int64)
    ensures ExpiredTimeStamp(Eternal, now) == 0
  {
  }

  /**
   * Beyond January 2038 the `(int)` cast wraps: one hour after
   * 2^31 seconds since the epoch the stamp is negative.
   */
  lemma StampWrapsAfter2038()
    ensures ExpiredTimeStamp(Millis(3_600_000), 0x8000_0000 * 1000) < 0
  {
    var t := 0x8000_0000 * 1000 + 3_600_000;
    assert AdjustedTime(Millis(3_600_000), 0x8000_0000 * 1000) == t;
    assert JavaDiv(t, 1000) == 0x8000_0000 + 3600;
  }
}
