/** When a schedule runs, in a zone of fixed offset. Day 0 is a Thursday; Monday is weekday 0. */
module Recurrences {
  import opened Common
  import opened QuietHours

  datatype Recurrence =
    | Daily(at: TimeOfDay, offset: int)
    | Weekly(at: TimeOfDay, weekday: int, offset: int)
    | Interval(seconds: int)

  /** What the constructor accepts. */
  predicate Valid(r: Recurrence) {
    match r
    case Daily(_, _) => true
    case Weekly(_, weekday, _) => 0 <= weekday < 7
    case Interval(seconds) => seconds >= 1
  }

  function Weekday(day: int): int {
    (day + 3) % 7
  }

  /** Days that are known: 1 January 1970 was a Thursday, 1 January 2024 a Monday. */
  lemma KnownWeekdays()
    ensures Weekday(0) == 3 && Weekday(19_723) == 0
  {
  }

  function LocalDay(offset: int, instant: int): int {
    (instant + offset) / DAY
  }

  /** The wall clock of the zone shows the schedule's time, on its day. */
  predicate IsOccurrence(r: Recurrence, x: int)
    requires !r.Interval?
  {
    && ClockTime(r.offset, x) == r.at
    && (r.Weekly? ==> Weekday(LocalDay(r.offset, x)) == r.weekday)
  }

  predicate Matches(r: Recurrence, day: int)
    requires !r.Interval?
  {
    r.Weekly? ==> Weekday(day) == r.weekday
  }

  /** The instant of the schedule's time on a local day. */
  function OnDay(r: Recurrence, day: int): int
    requires !r.Interval?
  {
    day * DAY + r.at - r.offset
  }

  /** How many days after today the next occurrence falls. */
  function DaysAhead(r: Recurrence, after: int): int
    requires Valid(r) && !r.Interval?
  {
    var today := LocalDay(r.offset, after);
    match r
    case Daily(_, _) => if OnDay(r, today) > after then 0 else 1
    case Weekly(_, weekday, _) =>
      var ahead := (weekday - Weekday(today)) % 7;
      if ahead > 0 || OnDay(r, today) > after then ahead else 7
  }

  /** The first run strictly after an instant. */
  function NextRun(r: Recurrence, after: int): int
    requires Valid(r)
  {
    if r.Interval? then after + r.seconds * SECOND
    else OnDay(r, LocalDay(r.offset, after) + DaysAhead(r, after))
  }

  // The search finds it

  lemma DayBounds(offset: int, after: int)
    ensures var today := LocalDay(offset, after);
      today * DAY <= after + offset < (today + 1) * DAY
  {
  }

  lemma LaterDayIsLater(r: Recurrence, after: int, k: int)
    requires !r.Interval? && k >= 1
    ensures OnDay(r, LocalDay(r.offset, after) + k) > after
  {
    DayBounds(r.offset, after);
  }

  /** Of the days from today on, the one found is the first that matches and is later. */
  lemma FirstMatch(r: Recurrence, after: int, k: int)
    requires Valid(r) && !r.Interval? && 0 <= k <= DaysAhead(r, after)
    ensures var today := LocalDay(r.offset, after);
      Matches(r, today + k) && OnDay(r, today + k) > after <==> k == DaysAhead(r, after)
    ensures DaysAhead(r, after) <= 7
  {
    var today := LocalDay(r.offset, after);
    if k >= 1 {
      LaterDayIsLater(r, after, k);
    }
    if r.Weekly? {
      WeekdayAhead(today, r.weekday, k);
    }
  }

  lemma WeekdayAhead(today: int, weekday: int, k: int)
    requires 0 <= weekday < 7 && 0 <= k <= 7
    ensures Weekday(today + k) == weekday <==> k % 7 == (weekday - Weekday(today)) % 7
  {
    var w := Weekday(today);
    var q := (today + 3) / 7;
    assert today + 3 == 7 * q + w;
    assert Weekday(today + k) == (7 * q + (w + k)) % 7 == (w + k) % 7;
  }

  /** Searches nine days; a weekday recurs within eight, so that the end of the loop is never reached. */
  method NextAfter(r: Recurrence, after: int) returns (next: int)
    requires Valid(r)
    ensures next == NextRun(r, after)
  {
    if r.Interval? {
      return after + r.seconds * SECOND;
    }
    var first := LocalDay(r.offset, after);
    for k := 0 to 9
      invariant k <= DaysAhead(r, after)
    {
      FirstMatch(r, after, k);
      var day := first + k;
      if r.Weekly? && Weekday(day) != r.weekday {
        continue;
      }
      var candidate := OnDay(r, day);
      if candidate > after {
        return candidate;
      }
    }
    FirstMatch(r, after, DaysAhead(r, after));
    assert false;
  }

  // It is the first

  lemma OccurrenceIsOnDay(r: Recurrence, x: int)
    requires !r.Interval?
    ensures IsOccurrence(r, x) <==> (Matches(r, LocalDay(r.offset, x)) && x == OnDay(r, LocalDay(r.offset, x)))
  {
    var local := x + r.offset;
    assert local == DAY * (local / DAY) + local % DAY;
  }

  lemma DayOfOnDay(r: Recurrence, day: int)
    requires !r.Interval?
    ensures LocalDay(r.offset, OnDay(r, day)) == day
  {
    assert (day * DAY + r.at) / DAY == day;
  }

  lemma DaysInOrder(offset: int, x: int, y: int)
    requires x <= y
    ensures LocalDay(offset, x) <= LocalDay(offset, y)
  {
  }

  /** The next run is the least wall-clock occurrence strictly after the given instant. */
  lemma NextRunIsLeast(r: Recurrence, after: int, x: int)
    requires Valid(r) && !r.Interval?
    ensures IsOccurrence(r, NextRun(r, after)) && NextRun(r, after) > after
    ensures after < x < NextRun(r, after) ==> !IsOccurrence(r, x)
  {
    var today := LocalDay(r.offset, after);
    var next := NextRun(r, after);
    var ahead := DaysAhead(r, after);
    FirstMatch(r, after, ahead);
    DayOfOnDay(r, today + ahead);
    OccurrenceIsOnDay(r, next);
    if after < x < next && IsOccurrence(r, x) {
      OccurrenceIsOnDay(r, x);
      DaysInOrder(r.offset, after, x);
      DaysInOrder(r.offset, x, next);
      FirstMatch(r, after, LocalDay(r.offset, x) - today);
    }
  }

  // The window after a claim

  function Max(a: int, b: int): int {
    if a >= b then a else b
  }

  /** An interval keeps its grid; the others are anchored to the wall clock. */
  function Following(r: Recurrence, due: int, now: int): int
    requires Valid(r)
  {
    if !r.Interval? then NextRun(r, now)
    else
      var step := r.seconds * SECOND;
      due + step * (Max(now - due, 0) / step + 1)
  }

  function Times(step: int, k: int): int {
    step * k
  }

  ghost predicate OnGrid(origin: int, step: int, x: int) {
    exists k :: x == origin + Times(step, k)
  }

  lemma TimesAdds(step: int, j: int, k: int)
    ensures Times(step, j + k) == Times(step, j) + Times(step, k)
  {
  }

  lemma TimesGrows(step: int, k: int, q: int)
    requires step > 0 && k < q
    ensures Times(step, k) + step <= Times(step, q)
  {
    TimesAdds(step, k, q - k);
    AtLeastOne(step, q - k);
  }

  lemma AtLeastOne(step: int, n: int)
    requires step > 0 && n >= 1
    ensures Times(step, n) >= step
  {
  }

  /** For an interval the window after a claim is the least grid point after the due one that lies after now. */
  lemma FollowingIsNextGridPoint(r: Recurrence, due: int, now: int, x: int)
    requires Valid(r) && r.Interval?
    ensures var step := r.seconds * SECOND;
      var next := Following(r, due, now);
      && next > now && next > due && OnGrid(due, step, next)
      && (x > now && x > due && OnGrid(due, step, x) ==> next <= x)
  {
    var step := r.seconds * SECOND;
    var elapsed := Max(now - due, 0);
    var q := elapsed / step;
    Quotient(elapsed, step);
    TimesAdds(step, q, 1);
    assert Following(r, due, now) == due + Times(step, q + 1);
    if x > now && x > due && OnGrid(due, step, x) {
      var k :| x == due + Times(step, k);
      if k < q + 1 && k != q {
        TimesGrows(step, k, q);
      } else if k > q + 1 {
        TimesGrows(step, q + 1, k);
      }
    }
  }

  lemma Quotient(elapsed: int, step: int)
    requires step > 0 && elapsed >= 0
    ensures elapsed / step >= 0 && Times(step, elapsed / step) <= elapsed < Times(step, elapsed / step) + step
  {
    assert elapsed == step * (elapsed / step) + elapsed % step;
  }

  lemma GridIsTransitive(a: int, b: int, c: int, step: int)
    requires OnGrid(a, step, b) && OnGrid(b, step, c)
    ensures OnGrid(a, step, c)
  {
    var j :| b == a + Times(step, j);
    var k :| c == b + Times(step, k);
    TimesAdds(step, j, k);
  }

  /**
   x is the first window after now: the first wall-clock occurrence, or for an
   interval the first point of the grid through the window that was due.
   */
  ghost predicate IsNextWindow(r: Recurrence, due: int, now: int, x: int) {
    && x > now
    && if r.Interval? then
         OnGrid(due, r.seconds * SECOND, x) && forall y :: y > now && OnGrid(due, r.seconds * SECOND, y) ==> x <= y
       else
         IsOccurrence(r, x) && forall y :: now < y < x ==> !IsOccurrence(r, y)
  }

  /** A claim that was due moves the schedule to the first window after now: none is left out, none lies in the past. */
  lemma FollowingIsNextWindow(r: Recurrence, due: int, now: int, x: int)
    requires Valid(r) && due <= now
    ensures due <= now < Following(r, due, now)
    ensures IsNextWindow(r, due, now, x) <==> x == Following(r, due, now)
  {
    var next := Following(r, due, now);
    if r.Interval? {
      FollowingIsNextGridPoint(r, due, now, now);
      forall y | y > now && OnGrid(due, r.seconds * SECOND, y)
        ensures next <= y
      {
        FollowingIsNextGridPoint(r, due, now, y);
      }
    } else {
      NextRunIsLeast(r, now, now);
      forall y | now < y < next
        ensures !IsOccurrence(r, y)
      {
        NextRunIsLeast(r, now, y);
      }
    }
    assert IsNextWindow(r, due, now, next);
  }
}
