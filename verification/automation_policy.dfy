/**
 When automations run: recurrence, validation and the spacing of follow-ups. Instants are whole
 microseconds; what a timezone does is the parameter `Calendar`.
 */
module AutomationPolicy {
  import opened Sequences

  const HOUR := 3_600_000_000
  /** How late a run may start and still count as on time (fifteen minutes). */
  const ON_TIME_GRACE := 900_000_000

  /**
   A timezone: the local day of an instant, and the instant of a wall-clock time on a day, if that
   time exists there. Day 0 is a Monday.
   */
  datatype Calendar = Calendar(dayOf: int -> int, at: (int, nat) -> Option<int>)

  /** A once timing holds the instant its text names, or none when that local time does not exist. */
  datatype Timing =
    | Once(instant: Option<int>)
    | Interval(hours: int, start: Option<int>)
    | Daily(clock: nat)
    | Weekly(weekday: nat, clock: nat)

  datatype Next = At(t: int) | Passed | Invalid

  function Max(a: int, b: int): int { if a < b then b else a }

  predicate DayMatches(timing: Timing, day: int) {
    timing.Daily? || (timing.Weekly? && day % 7 == timing.weekday)
  }

  /** The occurrence on the day `offset` days after `today`, when there is one later than `after`. */
  function SlotOn(cal: Calendar, timing: Timing, day: int, after: int): Option<int>
    requires timing.Daily? || timing.Weekly?
  {
    if !DayMatches(timing, day) then None
    else
      var value := cal.at(day, timing.clock);
      if value.Some? && value.value > after then value else None
  }

  function SlotAhead(cal: Calendar, timing: Timing, today: int, offset: nat, after: int): Option<int>
    requires timing.Daily? || timing.Weekly?
  {
    SlotOn(cal, timing, today + offset, after)
  }

  /** The first slot of the nine days scanned, from `offset` on. */
  function Scan(cal: Calendar, timing: Timing, today: int, offset: nat, after: int): Next
    requires (timing.Daily? || timing.Weekly?) && offset <= 9
    decreases 9 - offset
  {
    if offset == 9 then Invalid
    else
      var slot := SlotAhead(cal, timing, today, offset, after);
      if slot.Some? then At(slot.value) else Scan(cal, timing, today, offset + 1, after)
  }

  function NextRun(cal: Calendar, timing: Timing, after: int): Next {
    match timing
    case Once(instant) =>
      if instant.None? then Invalid else if instant.value > after then At(instant.value) else Passed
    case Interval(hours, start) =>
      if hours <= 0 then Invalid
      else
        var from := if start.Some? then start.value else after;
        var step := hours * HOUR;
        if from > after then At(from) else At(from + step * ((after - from) / step + 1))
    case Weekly(weekday, _) =>
      if weekday >= 7 then Invalid else Scan(cal, timing, cal.dayOf(after), 0, after)
    case Daily(_) => Scan(cal, timing, cal.dayOf(after), 0, after)
  }

  method ScanDays(cal: Calendar, timing: Timing, today: int, after: int) returns (next: Next)
    requires timing.Daily? || timing.Weekly?
    ensures next == Scan(cal, timing, today, 0, after)
  {
    for offset := 0 to 9
      invariant Scan(cal, timing, today, offset, after) == Scan(cal, timing, today, 0, after)
    {
      var day := today + offset;
      if timing.Weekly? && day % 7 != timing.weekday {
        continue;
      }
      var value := cal.at(day, timing.clock);
      if value.Some? && value.value > after {
        return At(value.value);
      }
    }
    return Invalid;
  }

  function AnchorTiming(timing: Timing, now: int): Timing {
    if timing.Interval? && timing.start.None? then timing.(start := Some(now)) else timing
  }

  function FollowingRun(cal: Calendar, timing: Timing, occurrence: int, started: int, now: int, minHours: nat): Next {
    var earliest := started + minHours * HOUR - ON_TIME_GRACE;
    NextRun(cal, timing, Max(occurrence, Max(earliest - 1, now)))
  }

  function ValidateSchedule(cal: Calendar, timing: Timing, minHours: nat, now: int): Next {
    var value := NextRun(cal, timing, now);
    if !value.At? || timing.Once? then value
    else
      var later := NextRun(cal, timing, value.t);
      if !later.At? || later.t - value.t < minHours * HOUR then Invalid
      else if (timing.Daily? && minHours > 24) || (timing.Weekly? && minHours > 168) then Invalid
      else value
  }

  predicate TooClose(a: int, b: int, minHours: nat) {
    -(minHours * HOUR) < a - b < minHours * HOUR
  }

  // ---- what next_run finds -----------------------------------------------------------------

  /** Whatever the timing, the next run is strictly later. */
  lemma {:induction false} NextIsLater(cal: Calendar, timing: Timing, after: int)
    ensures NextRun(cal, timing, after).At? ==> NextRun(cal, timing, after).t > after
  {
  }

  function Point(start: int, step: int, k: nat): int { start + step * k }

  ghost predicate OnGrid(start: int, step: int, t: int) { exists k: nat :: Point(start, step, k) == t }

  lemma {:induction false} GridNext(from: int, step: int, after: int)
    requires step > 0 && from <= after
    ensures var t := from + step * ((after - from) / step + 1);
            OnGrid(from, step, t) && after < t <= after + step
  {
    var q := (after - from) / step;
    assert after - from == step * q + (after - from) % step;
    assert step * (q + 1) == step * q + step;
    assert Point(from, step, q + 1) == from + step * (q + 1);
  }

  lemma {:induction false} PointOrder(start: int, step: int, a: nat, b: nat)
    requires step > 0 && a <= b
    ensures Point(start, step, a) <= Point(start, step, b)
    ensures a < b ==> Point(start, step, a) + step <= Point(start, step, b)
    decreases b
  {
    if a < b {
      PointOrder(start, step, a, b - 1);
      assert step * b == step * (b - 1) + step;
    }
  }

  /** Two points of one grid are equal or at least a step apart. */
  lemma {:induction false} GridGap(start: int, step: int, t: int, u: int)
    requires step > 0 && OnGrid(start, step, t) && OnGrid(start, step, u) && t < u
    ensures t + step <= u
  {
    var a: nat :| Point(start, step, a) == t;
    var b: nat :| Point(start, step, b) == u;
    if a <= b {
      PointOrder(start, step, a, b);
    } else {
      PointOrder(start, step, b, a);
    }
  }

  /** An interval's next run is the first point of its grid after `after`. */
  lemma {:induction false} IntervalIsFirstGridPoint(cal: Calendar, hours: int, start: int, after: int, u: int)
    requires hours > 0
    ensures var next := NextRun(cal, Interval(hours, Some(start)), after);
            && next.At? && next.t > after && OnGrid(start, hours * HOUR, next.t)
            && (OnGrid(start, hours * HOUR, u) && u > after ==> next.t <= u)
  {
    var step, next := hours * HOUR, NextRun(cal, Interval(hours, Some(start)), after);
    if start <= after {
      GridNext(start, step, after);
      if OnGrid(start, step, u) && after < u < next.t {
        GridGap(start, step, u, next.t);
      }
    } else {
      assert Point(start, step, 0) == start;
      if OnGrid(start, step, u) {
        var k: nat :| Point(start, step, k) == u;
        PointOrder(start, step, 0, k);
      }
    }
  }

  /** A scan passes over the days that have no later slot. */
  lemma {:induction false} SkipTo(cal: Calendar, timing: Timing, today: int, offset: nat, to: nat, after: int)
    requires (timing.Daily? || timing.Weekly?) && offset <= to <= 9
    requires forall k: nat | offset <= k < to :: SlotAhead(cal, timing, today, k, after).None?
    ensures Scan(cal, timing, today, offset, after) == Scan(cal, timing, today, to, after)
    decreases 9 - offset
  {
    if offset < to {
      SkipTo(cal, timing, today, offset + 1, to, after);
    }
  }

  /** The scan stops at the first matching day that has a later slot, and fails when none of the nine has. */
  lemma {:induction false} ScanFinds(cal: Calendar, timing: Timing, today: int, offset: nat, after: int)
    requires (timing.Daily? || timing.Weekly?) && offset <= 9
    ensures var next := Scan(cal, timing, today, offset, after);
            && (next.Invalid? <==> forall k: nat | offset <= k < 9 :: SlotAhead(cal, timing, today, k, after).None?)
            && (!next.Invalid? ==> next.At? && next.t > after && FoundAt(cal, timing, today, offset, after, next.t))
    decreases 9 - offset
  {
    if offset < 9 {
      ScanFinds(cal, timing, today, offset + 1, after);
      var next := Scan(cal, timing, today, offset, after);
      if SlotAhead(cal, timing, today, offset, after).None? && next.At? {
        var k: nat :| offset + 1 <= k < 9 && SlotAhead(cal, timing, today, k, after) == Some(next.t)
                 && forall j: nat | offset + 1 <= j < k :: SlotAhead(cal, timing, today, j, after).None?;
        assert forall j: nat | offset <= j < k :: SlotAhead(cal, timing, today, j, after).None?;
      }
    }
  }

  predicate FoundAt(cal: Calendar, timing: Timing, today: int, offset: nat, after: int, t: int)
    requires timing.Daily? || timing.Weekly?
  {
    exists k: nat | offset <= k < 9 ::
      && SlotAhead(cal, timing, today, k, after) == Some(t)
      && forall j: nat | offset <= j < k :: SlotAhead(cal, timing, today, j, after).None?
  }

  /** The calendar hypotheses under which "first" means first: later days come later, and days gone by are past. */
  ghost predicate InOrder(cal: Calendar, clock: nat, after: int) {
    && (forall d, e | d < e && cal.at(d, clock).Some? && cal.at(e, clock).Some? ::
          cal.at(d, clock).value < cal.at(e, clock).value)
    && (forall d | d < cal.dayOf(after) && cal.at(d, clock).Some? :: cal.at(d, clock).value <= after)
  }

  lemma {:induction false} ScanOrdered(cal: Calendar, timing: Timing, today: int, offset: nat, after: int, day: int)
    requires (timing.Daily? || timing.Weekly?) && offset <= 9 && today + offset <= day
    requires InOrder(cal, timing.clock, after) && Scan(cal, timing, today, offset, after).At?
    requires SlotOn(cal, timing, day, after).Some?
    ensures Scan(cal, timing, today, offset, after).t <= cal.at(day, timing.clock).value
    decreases 9 - offset
  {
    if SlotAhead(cal, timing, today, offset, after).None? {
      assert day != today + offset;
      ScanOrdered(cal, timing, today, offset + 1, after, day);
    }
  }

  /** What a daily or weekly scan finds is the first occurrence after `after` on any day at all. */
  lemma {:induction false} ScanIsFirst(cal: Calendar, timing: Timing, after: int, day: int)
    requires timing.Daily? || (timing.Weekly? && timing.weekday < 7)
    requires InOrder(cal, timing.clock, after)
    requires NextRun(cal, timing, after).At?
    requires DayMatches(timing, day) && cal.at(day, timing.clock).Some? && cal.at(day, timing.clock).value > after
    ensures NextRun(cal, timing, after).t <= cal.at(day, timing.clock).value
  {
    assert cal.dayOf(after) <= day;
    ScanOrdered(cal, timing, cal.dayOf(after), 0, after, day);
  }

  /** A weekly schedule has no next run exactly when none of its days among the nine scanned has a later slot. */
  lemma {:induction false} WeeklyFailsIff(cal: Calendar, weekday: nat, clock: nat, after: int)
    requires weekday < 7
    ensures NextRun(cal, Weekly(weekday, clock), after).Invalid? <==>
            forall day | cal.dayOf(after) <= day < cal.dayOf(after) + 9 && day % 7 == weekday ::
              cal.at(day, clock).None? || cal.at(day, clock).value <= after
  {
    var timing, today := Weekly(weekday, clock), cal.dayOf(after);
    ScanFinds(cal, timing, today, 0, after);
    if NextRun(cal, timing, after).Invalid? {
      forall day | today <= day < today + 9 && day % 7 == weekday
        ensures cal.at(day, clock).None? || cal.at(day, clock).value <= after
      {
        assert SlotAhead(cal, timing, today, day - today, after).None?;
      }
    } else {
      var k: nat :| 0 <= k < 9 && SlotAhead(cal, timing, today, k, after).Some?;
      assert SlotOn(cal, timing, today + k, after).Some?;
    }
  }

  lemma {:induction false} SameWeekday(a: int, b: int)
    requires a % 7 == b % 7 && -7 < a - b < 7
    ensures a == b
  {
  }

  /** Asked on a day whose slot is skipped, a weekly schedule runs the week after. */
  lemma {:induction false} RunsNextWeek(cal: Calendar, weekday: nat, clock: nat, day: int, later: int)
    requires weekday < 7 && day % 7 == weekday && cal.at(day, clock).None? && cal.dayOf(later) == day
    requires cal.at(day + 7, clock).Some? && cal.at(day + 7, clock).value > later
    ensures NextRun(cal, Weekly(weekday, clock), later) == At(cal.at(day + 7, clock).value)
  {
    var timing := Weekly(weekday, clock);
    forall k: nat | k < 7 ensures SlotAhead(cal, timing, day, k, later).None? {
      if (day + k) % 7 == weekday { SameWeekday(day + k, day); }
    }
    SkipTo(cal, timing, day, 0, 7, later);
  }

  // ---- what a repeating schedule needs to be accepted -----------------------------------------------

  /** Day `d` has the first slot after `after` of the nine days scanned from `today` on. */
  predicate FirstSlotDay(cal: Calendar, timing: Timing, today: int, after: int, d: int)
    requires timing.Daily? || timing.Weekly?
  {
    && today <= d < today + 9 && SlotOn(cal, timing, d, after).Some?
    && forall e | today <= e < d :: SlotOn(cal, timing, e, after).None?
  }

  lemma {:induction false} ScanStopsAt(cal: Calendar, timing: Timing, today: int, after: int, d: int)
    requires (timing.Daily? || timing.Weekly?) && FirstSlotDay(cal, timing, today, after, d)
    ensures Scan(cal, timing, today, 0, after) == At(cal.at(d, timing.clock).value)
  {
    forall k: nat | k < d - today ensures SlotAhead(cal, timing, today, k, after).None? {
      assert SlotOn(cal, timing, today + k, after).None?;
    }
    SkipTo(cal, timing, today, 0, d - today, after);
  }

  lemma {:induction false} ScanHasDay(cal: Calendar, timing: Timing, today: int, after: int) returns (d: int)
    requires (timing.Daily? || timing.Weekly?) && Scan(cal, timing, today, 0, after).At?
    ensures FirstSlotDay(cal, timing, today, after, d)
  {
    ScanFinds(cal, timing, today, 0, after);
    var t := Scan(cal, timing, today, 0, after).t;
    var k: nat :| k < 9 && SlotAhead(cal, timing, today, k, after) == Some(t)
                  && forall j: nat | j < k :: SlotAhead(cal, timing, today, j, after).None?;
    d := today + k;
    forall e | today <= e < d ensures SlotOn(cal, timing, e, after).None? {
      assert SlotAhead(cal, timing, today, e - today, after).None?;
    }
  }

  /** Slots at this wall-clock time are on the days they are for. */
  ghost predicate OnTheirDays(cal: Calendar, clock: nat) {
    forall d :: cal.at(d, clock).Some? ==> cal.dayOf(cal.at(d, clock).value) == d
  }

  /** Day `d` has the next slot after `now` and day `e` the one after that, far enough apart. */
  predicate TwoSlots(cal: Calendar, timing: Timing, minHours: nat, now: int, d: int, e: int)
    requires timing.Daily? || timing.Weekly?
  {
    && FirstSlotDay(cal, timing, cal.dayOf(now), now, d)
    && FirstSlotDay(cal, timing, d, cal.at(d, timing.clock).value, e)
    && cal.at(e, timing.clock).value - cal.at(d, timing.clock).value >= minHours * HOUR
  }

  /**
   A daily or weekly schedule is accepted, when it is made, edited or polled, exactly when not only its next slot but
   also the one after that is among the nine days scanned from the day of the one before, the minimum apart.
   */
  lemma {:induction false} AcceptedIff(cal: Calendar, timing: Timing, minHours: nat, now: int)
    requires (timing.Daily? || (timing.Weekly? && timing.weekday < 7)) && OnTheirDays(cal, timing.clock)
    ensures ValidateSchedule(cal, timing, minHours, now).At? <==>
            minHours <= (if timing.Daily? then 24 else 168) && exists d, e :: TwoSlots(cal, timing, minHours, now, d, e)
  {
    var next := NextRun(cal, timing, now);
    if next.At? {
      var d := ScanHasDay(cal, timing, cal.dayOf(now), now);
      ScanStopsAt(cal, timing, cal.dayOf(now), now, d);
      if NextRun(cal, timing, next.t).At? {
        var e := ScanHasDay(cal, timing, d, next.t);
        ScanStopsAt(cal, timing, d, next.t, e);
        assert ValidateSchedule(cal, timing, minHours, now).At? ==> TwoSlots(cal, timing, minHours, now, d, e);
      }
    }
    if d, e :| TwoSlots(cal, timing, minHours, now, d, e) {
      ScanStopsAt(cal, timing, cal.dayOf(now), now, d);
      ScanStopsAt(cal, timing, d, cal.at(d, timing.clock).value, e);
    }
  }

  /** The next slot of a weekly time is on day `d`: its own day of the nine scanned, unless the one before has it. */
  predicate WeeklyNext(cal: Calendar, weekday: nat, clock: nat, now: int, d: int) {
    && cal.dayOf(now) <= d < cal.dayOf(now) + 9 && d % 7 == weekday
    && cal.at(d, clock).Some? && cal.at(d, clock).value > now
    && (d - 7 >= cal.dayOf(now) ==> cal.at(d - 7, clock).None? || cal.at(d - 7, clock).value <= now)
  }

  /** The week after day `d` has a slot too, the minimum later. */
  predicate AgainNextWeek(cal: Calendar, clock: nat, minHours: nat, d: int)
    requires cal.at(d, clock).Some?
  {
    && cal.at(d + 7, clock).Some? && cal.at(d + 7, clock).value > cal.at(d, clock).value
    && cal.at(d + 7, clock).value - cal.at(d, clock).value >= minHours * HOUR
  }

  lemma {:induction false} WeeklyFirstDay(cal: Calendar, weekday: nat, clock: nat, now: int, d: int)
    requires weekday < 7
    ensures WeeklyNext(cal, weekday, clock, now, d) <==> FirstSlotDay(cal, Weekly(weekday, clock), cal.dayOf(now), now, d)
  {
    var timing, today := Weekly(weekday, clock), cal.dayOf(now);
    if FirstSlotDay(cal, timing, today, now, d) && d - 7 >= today {
      assert SlotOn(cal, timing, d - 7, now).None?;
    }
    if WeeklyNext(cal, weekday, clock, now, d) {
      forall e | today <= e < d ensures SlotOn(cal, timing, e, now).None? {
        if e % 7 == weekday { EarlierWeekday(e, d); }
      }
    }
  }

  lemma {:induction false} EarlierWeekday(e: int, d: int)
    requires e % 7 == d % 7 && 0 < d - e < 9
    ensures e == d - 7
  {
  }

  lemma {:induction false} WeeklySecondDay(cal: Calendar, weekday: nat, clock: nat, d: int, e: int)
    requires weekday < 7 && d % 7 == weekday && cal.at(d, clock).Some?
    ensures FirstSlotDay(cal, Weekly(weekday, clock), d, cal.at(d, clock).value, e)
            <==> e == d + 7 && cal.at(e, clock).Some? && cal.at(e, clock).value > cal.at(d, clock).value
  {
    var timing, t := Weekly(weekday, clock), cal.at(d, clock).value;
    if d < e < d + 9 && e % 7 == weekday {
      EarlierWeekday(d, e);
    }
    forall k | d <= k < d + 7 ensures SlotOn(cal, timing, k, t).None? {
      if k % 7 == weekday { SameWeekday(k, d); }
    }
  }

  /**
   So a weekly schedule is accepted exactly when its next slot is among the nine days scanned and the week after that
   has one too, the minimum later: one slot skipped by a clock change refuses it, or suspends it when it is polled,
   also when it is the second next.
   */
  lemma {:induction false} WeeklyAcceptedIff(cal: Calendar, weekday: nat, clock: nat, minHours: nat, now: int)
    requires weekday < 7 && OnTheirDays(cal, clock)
    ensures ValidateSchedule(cal, Weekly(weekday, clock), minHours, now).At? <==>
            minHours <= 168 && exists d :: WeeklyNext(cal, weekday, clock, now, d) && AgainNextWeek(cal, clock, minHours, d)
  {
    var timing := Weekly(weekday, clock);
    AcceptedIff(cal, timing, minHours, now);
    if d, e :| TwoSlots(cal, timing, minHours, now, d, e) {
      WeeklyFirstDay(cal, weekday, clock, now, d);
      WeeklySecondDay(cal, weekday, clock, d, e);
      assert AgainNextWeek(cal, clock, minHours, d);
    }
    if d :| WeeklyNext(cal, weekday, clock, now, d) && AgainNextWeek(cal, clock, minHours, d) {
      WeeklyFirstDay(cal, weekday, clock, now, d);
      WeeklySecondDay(cal, weekday, clock, d, d + 7);
      assert TwoSlots(cal, timing, minHours, now, d, d + 7);
    }
  }

  /**
   When its one day of the nine, two to six days ahead, has its time skipped, no next run is found at all; asked on
   the skipped day itself, it is the week after.
   */
  lemma {:induction false} SkippedSlotRefused(
      cal: Calendar, weekday: nat, clock: nat, minHours: nat, after: int, day: int, later: int)
    requires weekday < 7 && day % 7 == weekday && cal.dayOf(after) + 2 <= day <= cal.dayOf(after) + 6
    requires cal.at(day, clock).None?
    ensures NextRun(cal, Weekly(weekday, clock), after).Invalid?
    ensures ValidateSchedule(cal, Weekly(weekday, clock), minHours, after).Invalid?
    ensures cal.dayOf(later) == day && cal.at(day + 7, clock).Some? && cal.at(day + 7, clock).value > later
            ==> NextRun(cal, Weekly(weekday, clock), later) == At(cal.at(day + 7, clock).value)
  {
    var timing, today := Weekly(weekday, clock), cal.dayOf(after);
    forall k: nat | k < 9 ensures SlotAhead(cal, timing, today, k, after).None? {
      if (today + k) % 7 == weekday { SameWeekday(today + k, day); }
    }
    SkipTo(cal, timing, today, 0, 9, after);
    if cal.dayOf(later) == day && cal.at(day + 7, clock).Some? && cal.at(day + 7, clock).value > later {
      RunsNextWeek(cal, weekday, clock, day, later);
    }
  }

  /** A calendar without clock changes except that one day has no time at all. */
  function OneDaySkipped(skipped: int): Calendar {
    Calendar((t: int) => t / (24 * HOUR), (day: int, clock: nat) => if day == skipped then None else Some(day * (24 * HOUR)))
  }

  lemma {:induction false} OneDaySkippedOk(skipped: int)
    ensures OnTheirDays(OneDaySkipped(skipped), 0)
  {
    forall d | OneDaySkipped(skipped).at(d, 0).Some?
      ensures OneDaySkipped(skipped).dayOf(OneDaySkipped(skipped).at(d, 0).value) == d
    {
      WholeDay(d, 0);
    }
  }

  lemma {:induction false} WholeDay(d: int, late: int)
    requires 0 <= late < 24 * HOUR
    ensures (d * (24 * HOUR) + late) / (24 * HOUR) == d
  {
  }

  /**
   Due on a Monday, polled then, and the Monday two weeks on is skipped: a next run is found, yet the schedule is
   refused, so it is suspended without running.
   */
  lemma {:induction false} SuspendedTwoWeeksAhead(minHours: nat, week: int, late: nat)
    requires late < 24 * HOUR
    ensures var cal, due := OneDaySkipped(7 * week + 14), 7 * week * (24 * HOUR);
            && cal.at(7 * week, 0) == Some(due)
            && NextRun(cal, Weekly(0, 0), due + late) == At((7 * week + 7) * (24 * HOUR))
            && ValidateSchedule(cal, Weekly(0, 0), minHours, due + late).Invalid?
  {
    var cal, day := OneDaySkipped(7 * week + 14), 7 * week;
    var now := day * (24 * HOUR) + late;
    WholeDay(day, late);
    WholeDay(day + 7, 0);
    assert WeeklyNext(cal, 0, 0, now, day + 7);
    WeeklyFirstDay(cal, 0, 0, now, day + 7);
    ScanStopsAt(cal, Weekly(0, 0), day, now, day + 7);
    var monday, next := day + 7, (day + 7) * (24 * HOUR);
    forall k: nat | k < 9 ensures SlotAhead(cal, Weekly(0, 0), monday, k, next).None? {
      if (monday + k) % 7 == 0 && k > 0 { EarlierWeekday(monday, monday + k); }
    }
    SkipTo(cal, Weekly(0, 0), monday, 0, 9, next);
  }

  // ---- runs of an interval schedule ----------------------------------------------------------------

  /** One run: when it was due, when it started and when its outcome was recorded. */
  datatype Times = Times(occurrence: int, started: int, finished: int)

  /** Runs of one unedited schedule: none starts before it is due, and each next one is due as recorded. */
  predicate Chained(cal: Calendar, timing: Timing, minHours: nat, runs: seq<Times>) {
    && (forall i | 0 <= i < |runs| :: runs[i].occurrence <= runs[i].started <= runs[i].finished)
    && (forall i | 0 < i < |runs| ::
          FollowingRun(cal, timing, runs[i-1].occurrence, runs[i-1].started, runs[i-1].finished, minHours)
          == At(runs[i].occurrence))
  }

  /** The next run is the first grid point after this occurrence and now that respects the gap. */
  lemma {:induction false} FollowingIsFirst(cal: Calendar, hours: int, start: int, r: Times, minHours: nat, u: int)
    requires hours > 0
    ensures var next := FollowingRun(cal, Interval(hours, Some(start)), r.occurrence, r.started, r.finished, minHours);
            var gap := minHours * 3_600_000_000 - 15 * 60_000_000;
            && next.At? && OnGrid(start, hours * HOUR, next.t)
            && next.t > r.occurrence && next.t > r.finished && next.t >= r.started + gap
            && (OnGrid(start, hours * HOUR, u) && u > r.occurrence && u > r.finished && u >= r.started + gap ==> next.t <= u)
  {
    var after := Max(r.occurrence, Max(r.started + minHours * HOUR - ON_TIME_GRACE - 1, r.finished));
    IntervalIsFirstGridPoint(cal, hours, start, after, u);
  }

  lemma {:induction false} OneMore(n: nat, step: int)
    requires n > 0
    ensures n * step == (n - 1) * step + step
  {
  }

  /** Over any such run every occurrence stays on the grid and starts keep the minimum gap less the grace. */
  lemma {:induction false} StartsKeepTheirGap(cal: Calendar, hours: int, start: int, minHours: nat, runs: seq<Times>, i: nat, j: nat)
    requires hours > 0 && minHours >= 1 && i <= j < |runs| && Chained(cal, Interval(hours, Some(start)), minHours, runs)
    requires OnGrid(start, hours * HOUR, runs[0].occurrence)
    ensures OnGrid(start, hours * HOUR, runs[j].occurrence)
    ensures runs[j].started >= runs[i].started + (j - i) * (minHours * HOUR - ON_TIME_GRACE)
    ensures runs[j].occurrence >= runs[i].occurrence + (j - i) * (hours * HOUR)
    decreases j
  {
    if j > 0 {
      var k := if i == j then j - 1 else i;
      StartsKeepTheirGap(cal, hours, start, minHours, runs, k, j - 1);
      FollowingIsFirst(cal, hours, start, runs[j-1], minHours, 0);
      GridGap(start, hours * HOUR, runs[j-1].occurrence, runs[j].occurrence);
      if i < j {
        OneMore(j - i, minHours * HOUR - ON_TIME_GRACE);
        OneMore(j - i, hours * HOUR);
      }
    }
  }

  /**
   The next slot is taken exactly when it is still ahead and respects the gap. A run that starts within the grace
   and ends before the next slot, under a step no shorter than the minimum, therefore never skips it.
   */
  lemma {:induction false} NextSlotTakenIff(cal: Calendar, hours: int, start: int, r: Times, minHours: nat)
    requires hours > 0 && OnGrid(start, hours * HOUR, r.occurrence) && r.occurrence <= r.started <= r.finished
    ensures var next := FollowingRun(cal, Interval(hours, Some(start)), r.occurrence, r.started, r.finished, minHours);
            var slot := r.occurrence + hours * HOUR;
            && (next == At(slot) <==> r.finished < slot && r.started + minHours * HOUR - ON_TIME_GRACE <= slot)
            && (hours >= minHours && r.started <= r.occurrence + ON_TIME_GRACE && r.finished < slot ==> next == At(slot))
  {
    var step := hours * HOUR;
    var slot := r.occurrence + step;
    FollowingIsFirst(cal, hours, start, r, minHours, slot);
    var next := FollowingRun(cal, Interval(hours, Some(start)), r.occurrence, r.started, r.finished, minHours);
    GridGap(start, step, r.occurrence, next.t);
    var k: nat :| Point(start, step, k) == r.occurrence;
    assert step * (k + 1) == step * k + step;
    assert Point(start, step, k + 1) == slot;
  }
}
