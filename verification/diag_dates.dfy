/** The "Yesterday" window of diag_dates.py in the business time zone, the fixed offset
    UTC+5:30: yesterday ends at today's local midnight and starts one day earlier,
    and a time belongs to it when start <= t < end. Instants are milliseconds since
    the epoch; the clock reading `now` is a parameter. */
module DiagDates {
  import opened Tally
  import opened Records

  /** UTC+5:30 in milliseconds. */
  const IstOffset: int := 5 * MsPerHour + 30 * MsPerMinute

  /** An instant at local midnight. */
  predicate IsLocalMidnight(m: Instant) {
    (m + IstOffset) % MsPerDay == 0
  }

  /** `now.replace(hour=0, minute=0, second=0, microsecond=0)` in the fixed zone. */
  function LocalMidnight(now: Instant): (m: Instant)
    ensures IsLocalMidnight(m)
    ensures m <= now < m + MsPerDay
  {
    now - (now + IstOffset) % MsPerDay
  }

  /** The local midnight at or before `t` is the only one less than a day before it. */
  lemma LocalMidnightUnique(m: Instant, t: Instant)
    requires IsLocalMidnight(m) && m <= t < m + MsPerDay
    ensures LocalMidnight(t) == m
  {
    var q := (m + IstOffset) / MsPerDay;
    assert m + IstOffset == q * MsPerDay;
    assert t + IstOffset == q * MsPerDay + (t - m);
    assert (t + IstOffset) % MsPerDay == t - m;
  }

  function YesterdayEnd(now: Instant): Instant {
    LocalMidnight(now)
  }

  function YesterdayStart(now: Instant): Instant {
    YesterdayEnd(now) - MsPerDay
  }

  /** The half-open membership test. */
  predicate InWindow(t: Instant, start: Instant, end: Instant) {
    start <= t < end
  }

  /** A time is in yesterday's window exactly when its own local day is the one before
      the local day of `now`. */
  lemma YesterdayIsPreviousLocalDay(now: Instant, t: Instant)
    ensures InWindow(t, YesterdayStart(now), YesterdayEnd(now)) <==> LocalMidnight(t) == YesterdayStart(now)
  {
    var start := YesterdayStart(now);
    assert IsLocalMidnight(start) by {
      var q := (YesterdayEnd(now) + IstOffset) / MsPerDay;
      assert YesterdayEnd(now) + IstOffset == q * MsPerDay;
      assert start + IstOffset == (q - 1) * MsPerDay;
    }
    if InWindow(t, start, YesterdayEnd(now)) {
      LocalMidnightUnique(start, t);
    }
  }

  /** `now.replace(hour=14, minute=0)`: 14:00 local on the day of `now`, keeping the
      seconds and fraction of `now`. */
  function TodayAt14(now: Instant): (t: Instant)
    ensures LocalMidnight(now) + 14 * MsPerHour <= t < LocalMidnight(now) + 14 * MsPerHour + MsPerMinute
    ensures (t - now) % MsPerMinute == 0
  {
    MinuteAligned(now + IstOffset);
    LocalMidnight(now) + 14 * MsPerHour + (now + IstOffset) % MsPerMinute
  }

  /** A day is a whole number of minutes, so the time of day keeps the minute's offset. */
  lemma MinuteOfDay(x: int)
    ensures x % MsPerDay % MsPerMinute == x % MsPerMinute
  {
    var q := x / MsPerDay;
    assert x == (q * 1440) * MsPerMinute + x % MsPerDay;
  }

  /** Moving from the time of day to 14:00 while keeping the offset in the minute is a
      whole number of minutes. */
  lemma MinuteAligned(x: int)
    ensures (14 * MsPerHour + x % MsPerMinute - x % MsPerDay) % MsPerMinute == 0
  {
    var r := x % MsPerDay;
    MinuteOfDay(x);
    var k := 840 - r / MsPerMinute;
    assert r == r / MsPerMinute * MsPerMinute + x % MsPerMinute;
    assert 14 * MsPerHour + x % MsPerMinute - r == k * MsPerMinute;
  }

  /** A deal won at 14:00 today is never in yesterday's window. */
  lemma TodayNotInYesterday(now: Instant)
    ensures !InWindow(TodayAt14(now), YesterdayStart(now), YesterdayEnd(now))
  {
  }

  /** `df[(df.closed_time >= start) & (df.closed_time < end)]`; converting the column to
      UTC and back to the zone keeps every instant. */
  function FilterWindow(times: seq<Instant>, start: Instant, end: Instant): (r: seq<Instant>)
    ensures forall i :: 0 <= i < |r| ==> InWindow(r[i], start, end)
    ensures forall t :: t in r <==> t in times && InWindow(t, start, end)
    ensures |r| == CountWhere(times, (t: Instant) => InWindow(t, start, end))
  {
    var inWindow := (t: Instant) => InWindow(t, start, end);
    var r := Filter(times, inWindow);
    assert forall t :: t in r <==> t in times && InWindow(t, start, end) by {
      forall t
        ensures t in r <==> t in times && InWindow(t, start, end)
      {
        FilterMembership(times, inWindow, t);
      }
    }
    r
  }

  /** Of 14:00 today and 10:00 yesterday, only the second is kept. */
  lemma FilterKeepsOnlyYesterday(now: Instant)
    ensures var start := YesterdayStart(now);
            FilterWindow([TodayAt14(now), start + 10 * MsPerHour], start, YesterdayEnd(now))
              == [start + 10 * MsPerHour]
  {
    var start := YesterdayStart(now);
    var p := (t: Instant) => InWindow(t, start, YesterdayEnd(now));
    var s := [TodayAt14(now), start + 10 * MsPerHour];
    assert !p(s[0]) && p(s[1]);
    assert s[1..][1..] == [];
  }
}
