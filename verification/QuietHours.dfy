/**
 Quiet hours in a fixed-offset zone.

 An instant is an integer number of microseconds; a zone is the number of
 microseconds it is ahead of UTC; a time of day counts microseconds from local
 midnight.
 */
module QuietHours {
  import opened Common

  type TimeOfDay = t: int | 0 <= t < DAY witness 0

  datatype Hours = Hours(start: TimeOfDay, end: TimeOfDay)

  function ClockTime(offset: int, instant: int): TimeOfDay {
    (instant + offset) % DAY
  }

  /** Whether the time of day lies in the period, which may wrap midnight. */
  predicate Inside(hours: Hours, t: TimeOfDay) {
    if hours.start <= hours.end then hours.start <= t < hours.end
    else t >= hours.start || t < hours.end
  }

  /** Counted from its start, around midnight where it must be, the period lasts up to its end: the start is in it, the end is not. */
  lemma InsideExact(hours: Hours, t: TimeOfDay)
    ensures Inside(hours, t) <==> (t - hours.start) % DAY < (hours.end - hours.start) % DAY
  {
  }

  predicate Quiet(hours: Hours, offset: int, instant: int) {
    Inside(hours, ClockTime(offset, instant))
  }

  /** When quiet hours end, if now falls inside them. The end keeps only its hour and minute. */
  function QuietUntil(hours: Option<Hours>, offset: int, now: int): Option<int> {
    match hours
    case None => None
    case Some(h) =>
      var local := now + offset;
      var t := ClockTime(offset, now);
      if !Inside(h, t) then None
      else
        var ends := local - t + (h.end - h.end % MINUTE);
        Some((if ends <= local then ends + DAY else ends) - offset)
  }

  /** u is the first instant after now that is not quiet, and every instant from now up to it is. */
  ghost predicate IsQuietEnd(hours: Hours, offset: int, now: int, u: int) {
    && now < u
    && !Quiet(hours, offset, u)
    && forall x :: now <= x < u ==> Quiet(hours, offset, x)
  }

  lemma TimeWithinDay(midnight: int, r: int)
    requires midnight % DAY == 0
    ensures 0 <= r < DAY ==> (midnight + r) % DAY == r
    ensures DAY <= r < 2 * DAY ==> (midnight + r) % DAY == r - DAY
  {
    var q := midnight / DAY;
    assert midnight == q * DAY;
  }

  /** The instant at which the clock next shows the end of the period. */
  function NextEnd(hours: Hours, offset: int, now: int): (u: int)
  {
    var t := ClockTime(offset, now);
    now - t + hours.end + (if hours.end <= t then DAY else 0)
  }

  lemma EndIsLater(hours: Hours, offset: int, now: int)
    requires Quiet(hours, offset, now)
    ensures now < NextEnd(hours, offset, now) && !Quiet(hours, offset, NextEnd(hours, offset, now))
  {
    var midnight := now + offset - ClockTime(offset, now);
    TimeWithinDay(midnight, NextEnd(hours, offset, now) + offset - midnight);
  }

  lemma NextEndIsQuietEnd(hours: Hours, offset: int, now: int)
    requires Quiet(hours, offset, now)
    ensures IsQuietEnd(hours, offset, now, NextEnd(hours, offset, now))
  {
    EndIsLater(hours, offset, now);
    hide Quiet, NextEnd, ClockTime;
    var u := NextEnd(hours, offset, now);
    forall x | now <= x < u
      ensures Quiet(hours, offset, x)
    {
      QuietBeforeEnd(hours, offset, now, x);
    }
  }

  lemma QuietBeforeEnd(hours: Hours, offset: int, now: int, x: int)
    requires Quiet(hours, offset, now) && now <= x < NextEnd(hours, offset, now)
    ensures Quiet(hours, offset, x)
  {
    var midnight := now + offset - ClockTime(offset, now);
    TimeWithinDay(midnight, x + offset - midnight);
  }

  /**
   The answer is None exactly outside quiet hours. Inside them it is the first
   instant that is not quiet if and only if the configured end is a whole
   minute; with seconds in the end it is wrong for every instant of the period.
   */
  lemma QuietUntilExact(hours: Hours, offset: int, now: int)
    ensures QuietUntil(Some(hours), offset, now).None? <==> !Quiet(hours, offset, now)
    ensures Quiet(hours, offset, now) ==>
      (IsQuietEnd(hours, offset, now, QuietUntil(Some(hours), offset, now).value)
       <==> hours.end % MINUTE == 0)
  {
    if Quiet(hours, offset, now) {
      var u := QuietUntil(Some(hours), offset, now).value;
      var e := NextEnd(hours, offset, now);
      NextEndIsQuietEnd(hours, offset, now);
      var midnight := now - ClockTime(offset, now);
      var cut := hours.end % MINUTE;
      assert u == midnight + hours.end - cut || u == midnight + hours.end - cut + DAY;
      assert e == midnight + hours.end || e == midnight + hours.end + DAY;
      assert u == e <==> cut == 0;
    }
  }

  /** A concrete miss: a period ending at 07:00:30, asked at 07:00:10, ends a day late. */
  lemma SecondsInEndLoseADay()
    ensures
      var hours := Hours(0, 420 * MINUTE + 30_000_000);
      var now := 420 * MINUTE + 10_000_000;
      QuietUntil(Some(hours), 0, now) == Some(420 * MINUTE + DAY)
      && !Quiet(hours, 0, now + 20_000_000)
  {
    var hours := Hours(0, 420 * MINUTE + 30_000_000);
    assert hours.end % MINUTE == 30_000_000;
  }
}
