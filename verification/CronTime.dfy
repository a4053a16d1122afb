/** The time of day at which the deferred reboot is scheduled. */
module CronTime {
  import opened CStrings

  const DAY: int := 24 * 60
  const DEFAULT_STOP_MINUTES: int := 30

  type Hour = h: int | 0 <= h < 24
  type Minute = m: int | 0 <= m < 60

  /** A daily cron entry. */
  datatype Entry = Entry(minute: int, hour: int)

  /** The entry is due in minute t, counted from some midnight. */
  predicate Due(e: Entry, t: int) { t % DAY == 60 * e.hour + e.minute }

  /** The entry for the minute that lies one minute and `add` minutes after `now`. */
  function EntryFor(now: int, add: int): Entry
  {
    var m := (now + 1 + add) % DAY;
    Entry(m % 60, m / 60)
  }

  lemma WrapsOnce(x: int, total: int, k: int)
    requires 0 <= x < DAY && x == total + DAY * k
    ensures x == total % DAY
  {
    assert total == DAY * (0 - k) + x;
  }

  /** compute_cron_time: one minute of slack, then the offset, wrapped by two loops. */
  method ComputeCronTime(hour: Hour, minute: Minute, add: int) returns (e: Entry)
    ensures 0 <= e.minute < 60 && 0 <= e.hour < 24
    ensures 60 * e.hour + e.minute == (60 * hour + minute + 1 + add) % DAY
    ensures e == EntryFor(60 * hour + minute, add)
  {
    var hr: int, mn: int := hour, minute;
    mn := mn + 1;
    mn := mn + add;
    ghost var total, k := 60 * hr + mn, 0;
    while mn < 0
      invariant 0 <= hr < 24 && 60 * hr + mn == total + DAY * k
      decreases -mn
    {
      mn := mn + 60;
      hr := hr - 1;
      if hr < 0 { hr := 23; k := k + 1; }
    }
    while mn >= 60
      invariant 0 <= hr < 24 && 0 <= mn && 60 * hr + mn == total + DAY * k
    {
      mn := mn - 60;
      hr := hr + 1;
      if hr > 23 { hr := 0; k := k - 1; }
    }
    WrapsOnce(60 * hr + mn, total, k);
    e := Entry(mn, hr);
  }

  /** The stop duration handle_cyclic_reboot uses for a parameter read or not. */
  function StopMinutes(duration: Option<int>): (d: int)
    ensures 1 <= d < DAY
  {
    if duration.Some? && 0 < duration.value < DAY then duration.value else DEFAULT_STOP_MINUTES
  }

  lemma SameMinuteOfDay(a: int, b: int)
    requires a % DAY == b % DAY && 0 < b - a <= DAY
    ensures b - a == DAY
  {
    assert b - a == DAY * (b / DAY - a / DAY);
  }

  /** The first firing after the current minute is d + 1 minutes away, for every clamped duration. */
  lemma FirstFiring(now: int, d: int, t: int)
    requires 1 <= d < DAY
    ensures Due(EntryFor(now, d), now + d + 1)
    ensures now < t < now + d + 1 ==> !Due(EntryFor(now, d), t)
  {
    if now < t < now + d + 1 && Due(EntryFor(now, d), t) {
      SameMinuteOfDay(t, now + d + 1);
    }
  }
}
