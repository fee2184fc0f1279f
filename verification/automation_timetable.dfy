/** What the recurrence arithmetic finds and accepts, told by the calendar and the clock alone. */
module AutomationTimetable {
  import opened Sequences
  import opened AutomationPolicy

  /** Day `d` is the first of the nine from `today` on whose slot is later than `after`. */
  predicate DailyNext(cal: Calendar, clock: nat, today: int, after: int, d: int) {
    && today <= d < today + 9 && cal.at(d, clock).Some? && cal.at(d, clock).value > after
    && forall e | today <= e < d :: cal.at(e, clock).None? || cal.at(e, clock).value <= after
  }

  lemma {:induction false} DailyFirstDay(cal: Calendar, clock: nat, today: int, after: int, d: int)
    ensures DailyNext(cal, clock, today, after, d) <==> FirstSlotDay(cal, Daily(clock), today, after, d)
  {
    if FirstSlotDay(cal, Daily(clock), today, after, d) {
      forall e | today <= e < d ensures cal.at(e, clock).None? || cal.at(e, clock).value <= after {
        assert SlotOn(cal, Daily(clock), e, after).None?;
      }
    }
  }

  /** A daily schedule's next run is a slot of one of the nine days, and before every later slot of any day at all. */
  lemma {:induction false} DailyIsFirst(cal: Calendar, clock: nat, after: int, day: int)
    requires InOrder(cal, clock, after) && NextRun(cal, Daily(clock), after).At?
    ensures var t := NextRun(cal, Daily(clock), after).t;
            && t > after && (cal.at(day, clock).Some? && cal.at(day, clock).value > after ==> t <= cal.at(day, clock).value)
            && exists d | cal.dayOf(after) <= d < cal.dayOf(after) + 9 :: cal.at(d, clock) == Some(t)
  {
    var d := ScanHasDay(cal, Daily(clock), cal.dayOf(after), after);
    ScanStopsAt(cal, Daily(clock), cal.dayOf(after), after, d);
    assert cal.at(d, clock) == Some(NextRun(cal, Daily(clock), after).t);
    if cal.at(day, clock).Some? && cal.at(day, clock).value > after {
      ScanIsFirst(cal, Daily(clock), after, day);
    }
  }

  /** It has none exactly when none of the nine days has a later slot. */
  lemma {:induction false} DailyFailsIff(cal: Calendar, clock: nat, after: int)
    ensures NextRun(cal, Daily(clock), after).At? <==>
            exists d | cal.dayOf(after) <= d < cal.dayOf(after) + 9 :: cal.at(d, clock).Some? && cal.at(d, clock).value > after
    ensures !NextRun(cal, Daily(clock), after).At? ==> NextRun(cal, Daily(clock), after).Invalid?
  {
    var timing, today := Daily(clock), cal.dayOf(after);
    ScanFinds(cal, timing, today, 0, after);
    if d :| today <= d < today + 9 && cal.at(d, clock).Some? && cal.at(d, clock).value > after {
      assert SlotAhead(cal, timing, today, d - today, after).Some?;
    }
    if NextRun(cal, timing, after).At? {
      var d := ScanHasDay(cal, timing, today, after);
      assert SlotOn(cal, timing, d, after).Some?;
    }
  }

  /** A weekly schedule's next run is a slot of its weekday, and before every later one, of any week at all. */
  lemma {:induction false} WeeklyIsFirst(cal: Calendar, weekday: nat, clock: nat, after: int, day: int)
    requires weekday < 7 && InOrder(cal, clock, after) && NextRun(cal, Weekly(weekday, clock), after).At?
    ensures var t := NextRun(cal, Weekly(weekday, clock), after).t;
            && t > after
            && (day % 7 == weekday && cal.at(day, clock).Some? && cal.at(day, clock).value > after ==> t <= cal.at(day, clock).value)
            && exists d | cal.dayOf(after) <= d < cal.dayOf(after) + 9 :: d % 7 == weekday && cal.at(d, clock) == Some(t)
  {
    var timing := Weekly(weekday, clock);
    var d := ScanHasDay(cal, timing, cal.dayOf(after), after);
    ScanStopsAt(cal, timing, cal.dayOf(after), after, d);
    assert d % 7 == weekday && cal.at(d, clock) == Some(NextRun(cal, timing, after).t);
    if day % 7 == weekday && cal.at(day, clock).Some? && cal.at(day, clock).value > after {
      ScanIsFirst(cal, timing, after, day);
    }
  }

  // ---- what is accepted ---------------------------------------------------------------------------------

  /**
   A daily schedule is accepted exactly when some day of the nine has its next slot, some day of the nine from that
   one on has the slot after it, the two the minimum apart, and the minimum is at most a day.
   */
  lemma {:induction false} DailyAcceptedIff(cal: Calendar, clock: nat, minHours: nat, now: int)
    requires OnTheirDays(cal, clock)
    ensures ValidateSchedule(cal, Daily(clock), minHours, now).At? <==>
            minHours <= 24 && exists d, e ::
              && DailyNext(cal, clock, cal.dayOf(now), now, d) && DailyNext(cal, clock, d, cal.at(d, clock).value, e)
              && cal.at(e, clock).value - cal.at(d, clock).value >= minHours * HOUR
  {
    var timing := Daily(clock);
    AcceptedIff(cal, timing, minHours, now);
    if d, e :| TwoSlots(cal, timing, minHours, now, d, e) {
      DailyFirstDay(cal, clock, cal.dayOf(now), now, d);
      DailyFirstDay(cal, clock, d, cal.at(d, clock).value, e);
    }
    if d, e :| DailyNext(cal, clock, cal.dayOf(now), now, d) && DailyNext(cal, clock, d, cal.at(d, clock).value, e)
               && cal.at(e, clock).value - cal.at(d, clock).value >= minHours * HOUR {
      DailyFirstDay(cal, clock, cal.dayOf(now), now, d);
      DailyFirstDay(cal, clock, d, cal.at(d, clock).value, e);
      assert TwoSlots(cal, timing, minHours, now, d, e);
    }
  }

  /** An interval is accepted exactly when it is positive and no shorter than the minimum. */
  lemma {:induction false} IntervalAcceptedIff(cal: Calendar, hours: int, start: Option<int>, minHours: nat, now: int)
    ensures ValidateSchedule(cal, Interval(hours, start), minHours, now).At? <==> hours > 0 && hours >= minHours
  {
    if hours > 0 {
      var from := if start.Some? then start.value else now;
      IntervalSteps(cal, hours, from, now);
      if start.None? {
        assert NextRun(cal, Interval(hours, None), now) == NextRun(cal, Interval(hours, Some(now)), now);
        var value := NextRun(cal, Interval(hours, Some(now)), now).t;
        assert NextRun(cal, Interval(hours, None), value) == NextRun(cal, Interval(hours, Some(value)), value);
        IntervalSteps(cal, hours, value, value);
        assert NextRun(cal, Interval(hours, None), value) == At(value + hours * HOUR);
      }
    }
  }

  lemma {:induction false} FarFromZero(d: int, n: int)
    requires d > 0
    ensures n >= 1 ==> d * n >= d
    ensures n <= -1 ==> d * n <= -d
  {
  }

  lemma {:induction false} ExactQuotient(d: int, k: int)
    requires d > 0
    ensures d * k / d == k
  {
    var q := d * k / d;
    assert d * k == d * q + d * k % d;
    assert d * (k - q) == d * k % d;
    FarFromZero(d, k - q);
  }

  lemma {:induction false} StepFromPoint(cal: Calendar, hours: int, from: int, k: nat)
    requires hours > 0
    ensures var value := Point(from, hours * HOUR, k);
            NextRun(cal, Interval(hours, Some(from)), value) == At(value + hours * HOUR)
  {
    var step := hours * HOUR;
    ExactQuotient(step, k);
    assert step * (k + 1) == step * k + step;
  }

  /** From a point of its grid the next run of an interval is one step on. */
  lemma {:induction false} IntervalSteps(cal: Calendar, hours: int, from: int, now: int)
    requires hours > 0
    ensures NextRun(cal, Interval(hours, Some(from)), now).At?
    ensures var value := NextRun(cal, Interval(hours, Some(from)), now).t;
            NextRun(cal, Interval(hours, Some(from)), value) == At(value + hours * HOUR)
    ensures NextRun(cal, Interval(hours, Some(now)), now) == At(now + hours * HOUR)
  {
    IntervalIsFirstGridPoint(cal, hours, from, now, 0);
    var value := NextRun(cal, Interval(hours, Some(from)), now).t;
    var k: nat :| Point(from, hours * HOUR, k) == value;
    StepFromPoint(cal, hours, from, k);
    StepFromPoint(cal, hours, now, 0);
  }

  /** A one-off runs at its instant while that is ahead, and is accepted exactly then. */
  lemma {:induction false} OnceAcceptedIff(cal: Calendar, instant: Option<int>, minHours: nat, now: int, t: int)
    ensures ValidateSchedule(cal, Once(instant), minHours, now) == At(t) <==> instant == Some(t) && t > now
    ensures ValidateSchedule(cal, Once(instant), minHours, now).Passed? <==> instant.Some? && instant.value <= now
  {
  }

  /** Whatever is accepted is accepted for its next run. */
  lemma {:induction false} AcceptedForNextRun(cal: Calendar, timing: Timing, minHours: nat, now: int)
    ensures ValidateSchedule(cal, timing, minHours, now).At? ==>
            ValidateSchedule(cal, timing, minHours, now) == NextRun(cal, timing, now)
  {
  }

  /** The run's slot, its end, and just before the minimum gap less fifteen minutes from its start: the latest of them. */
  function Spent(r: Times, minHours: nat): int {
    Max(r.occurrence, Max(r.started + minHours * 3_600_000_000 - 15 * 60_000_000 - 1, r.finished))
  }

  /** After a run, a daily schedule goes on with the first slot of any day that is later than all of these. */
  lemma {:induction false} DailyFollowingIsFirst(cal: Calendar, clock: nat, r: Times, minHours: nat, day: int)
    requires InOrder(cal, clock, Spent(r, minHours))
    requires FollowingRun(cal, Daily(clock), r.occurrence, r.started, r.finished, minHours).At?
    ensures var t, next := FollowingRun(cal, Daily(clock), r.occurrence, r.started, r.finished, minHours).t, cal.at(day, clock);
            t > Spent(r, minHours) && (next.Some? && next.value > Spent(r, minHours) ==> t <= next.value)
  {
    DailyIsFirst(cal, clock, Spent(r, minHours), day);
  }
}
