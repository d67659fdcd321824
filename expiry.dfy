/** The expiry rules of `Lease`, as functions of the fields they read: `LastAcquired`,
    the policy's `Duration`, the `Released` flag and the current time (`UtcNow`, passed
    in as `now`). */
module Expiry {
  import opened Wrappers
  import opened Time

  /** `Lease.Expires`: unknown until the lease has been acquired; the acquisition time
      plus the duration, or the largest timestamp when there is no duration. The sum is
      not clipped to the timestamp range. */
  function ExpiresAt(lastAcquired: Option<Timestamp>, duration: Option<Span>): Option<int>
  {
    match lastAcquired
    case None => None
    case Some(t) => if duration.None? then Some(MaxTimestamp) else Some(t + duration.value)
  }

  /** `Lease.LeaseHasExpired`: a lease never acquired has not expired; otherwise it is
      unexpired only when the SECONDS COMPONENT (`TimeSpan.Seconds`) of the time left,
      `Duration - (now - LastAcquired)`, is positive. A lease without a duration is
      expired. */
  predicate HasExpired(lastAcquired: Option<Timestamp>, duration: Option<Span>, now: Timestamp)
  {
    if lastAcquired.None? then false
    else
      var elapsed := now - lastAcquired.value;
      !(duration.Some? && SecondsComponent(duration.value - elapsed) > 0)
  }

  /** `Lease.HasLease`. */
  predicate HasLease(lastAcquired: Option<Timestamp>, duration: Option<Span>, released: bool, now: Timestamp)
  {
    !HasExpired(lastAcquired, duration, now) && !released
  }

  /** The time left on a lease that has been acquired and has a duration. */
  function TimeLeft(acquired: Timestamp, duration: Span, now: Timestamp): int
  {
    duration - (now - acquired)
  }

  /** `Expires` is absent exactly when `LastAcquired` is, and otherwise it is the
      acquisition time plus the duration, or the largest timestamp without one. */
  lemma ExpiresAtCases(lastAcquired: Option<Timestamp>, duration: Option<Span>)
    ensures ExpiresAt(lastAcquired, duration).None? <==> lastAcquired.None?
    ensures lastAcquired.Some? && duration.Some?
            ==> ExpiresAt(lastAcquired, duration) == Some(lastAcquired.value + duration.value)
    ensures lastAcquired.Some? && duration.None? ==> ExpiresAt(lastAcquired, duration) == Some(MaxTimestamp)
  {
  }

  /** A lease that was never acquired never expires, so it is held exactly while it has
      not been released, whatever time it is. */
  lemma NeverAcquiredIsHeldUntilReleased(duration: Option<Span>, released: bool, now: Timestamp)
    ensures !HasExpired(None, duration, now)
    ensures HasLease(None, duration, released, now) <==> !released
    ensures ExpiresAt(None, duration) == None
  {
  }

  /** A lease acquired without a duration reads as expired at every time, although its
      `Expires` is the largest timestamp: the two properties disagree. */
  lemma NoDurationIsAlwaysExpired(acquired: Timestamp, released: bool, now: Timestamp)
    ensures HasExpired(Some(acquired), None, now)
    ensures !HasLease(Some(acquired), None, released, now)
    ensures ExpiresAt(Some(acquired), None) == Some(MaxTimestamp)
  {
  }

  /** Once released, a lease is not held at any time. */
  lemma ReleasedIsNeverHeld(lastAcquired: Option<Timestamp>, duration: Option<Span>, now: Timestamp)
    ensures !HasLease(lastAcquired, duration, true, now)
  {
  }

  /** The expiry test in terms of the time left: the lease is unexpired exactly when at
      least one whole second is left and the whole seconds left are not a multiple of
      a minute. */
  lemma UnexpiredIff(acquired: Timestamp, duration: Span, now: Timestamp)
    ensures !HasExpired(Some(acquired), Some(duration), now)
            <==> TimeLeft(acquired, duration, now) >= TicksPerSecond
                 && (TimeLeft(acquired, duration, now) / TicksPerSecond) % 60 != 0
  {
    SecondsComponentPositive(TimeLeft(acquired, duration, now));
  }

  /** Within the last minute the test is what it looks like, except that it is coarse:
      a lease with less than one second left already counts as expired. */
  lemma LastMinuteExpiry(acquired: Timestamp, duration: Span, now: Timestamp)
    requires TimeLeft(acquired, duration, now) < 60 * TicksPerSecond
    ensures HasExpired(Some(acquired), Some(duration), now)
            <==> TimeLeft(acquired, duration, now) < TicksPerSecond
  {
    UnexpiredIff(acquired, duration, now);
  }

  /** A lease whose duration is a whole number of minutes reads as expired at the very
      moment it is acquired. */
  lemma WholeMinuteLeaseExpiredAtAcquisition(acquired: Timestamp, minutes: nat)
    requires 1 <= minutes <= 15_000_000
    ensures HasExpired(Some(acquired), Some(minutes * 60 * TicksPerSecond), acquired)
  {
    var d := minutes * 60 * TicksPerSecond;
    UnexpiredIff(acquired, d, acquired);
    assert TimeLeft(acquired, d, acquired) == d;
    assert d / TicksPerSecond == minutes * 60;
  }

  /** A 90-second lease reads as held when acquired, then as expired for the second
      that starts 29 seconds in, while a whole minute is still left. */
  lemma NinetySecondLease(acquired: Timestamp, now: Timestamp)
    requires acquired + 29 * TicksPerSecond < now <= acquired + 30 * TicksPerSecond
    ensures !HasExpired(Some(acquired), Some(90 * TicksPerSecond), acquired)
    ensures HasExpired(Some(acquired), Some(90 * TicksPerSecond), now)
  {
    var d := 90 * TicksPerSecond;
    UnexpiredIff(acquired, d, acquired);
    UnexpiredIff(acquired, d, now);
    var left := TimeLeft(acquired, d, now);
    assert 60 * TicksPerSecond <= left < 61 * TicksPerSecond;
    assert left / TicksPerSecond == 60;
  }
}
