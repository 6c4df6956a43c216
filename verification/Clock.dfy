/** The periods that the limiters count in; clock readings are in seconds. */
module Clock {

  function MinuteOf(now: real): int {
    (now / 60.0).Floor
  }

  function DayOf(now: real): int {
    (now / 86400.0).Floor
  }

  /** A reading lies in its minute of sixty seconds and in its day of 24 hours. */
  lemma PeriodsHoldTheirReadings(now: real)
    ensures 60.0 * MinuteOf(now) as real <= now < 60.0 * (MinuteOf(now) + 1) as real
    ensures 24.0 * 3600.0 * DayOf(now) as real <= now < 24.0 * 3600.0 * (DayOf(now) + 1) as real
  {
    assert MinuteOf(now) as real <= now / 60.0 < MinuteOf(now) as real + 1.0;
    assert DayOf(now) as real <= now / 86400.0 < DayOf(now) as real + 1.0;
  }
}
