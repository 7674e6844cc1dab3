/** When recurring transfers run: the first run computed by the route, and the
    worker's catch-up loop. */
module Schedule {
  import opened Wrappers
  import opened Calendar

  datatype Interval = Hourly | Daily | Weekly | Monthly

  /** What the request fixed: the hour, weekday (0 is Sunday) and day of month. */
  datatype Plan = Plan(interval: Interval, startHour: Option<int>, startDayOfWeek: Option<int>, startDayOfMonth: Option<int>)

  /** The ranges the request schema allows. */
  predicate ValidPlan(p: Plan) {
    && (p.startHour.Some? ==> 0 <= p.startHour.value <= 23)
    && (p.startDayOfWeek.Some? ==> 0 <= p.startDayOfWeek.value <= 6)
    && (p.startDayOfMonth.Some? ==> 1 <= p.startDayOfMonth.value <= 31)
  }

  function Hour(p: Plan): int { if p.startHour.Some? then p.startHour.value else 9 }

  function TargetDay(p: Plan): int { if p.startDayOfWeek.Some? then p.startDayOfWeek.value else 1 }

  /** Capped at 28 to avoid month overflow. */
  function TargetDate(p: Plan): int {
    var d := if p.startDayOfMonth.Some? then p.startDayOfMonth.value else 1;
    if d < 28 then d else 28
  }

  /** The instants at which a transfer is meant to run. */
  predicate OnSchedule(p: Plan, t: int) {
    match p.interval
    case Hourly => t % HOUR == 0
    case Daily => TimeWithinDay(t) == Hour(p) * HOUR
    case Weekly => TimeWithinDay(t) == Hour(p) * HOUR && WeekDay(t) == TargetDay(p)
    case Monthly => TimeWithinDay(t) == Hour(p) * HOUR && DateOf(Day(t)) == TargetDate(p)
  }

  /** `t` is the first scheduled instant strictly after `now`. */
  ghost predicate NextOnSchedule(p: Plan, now: int, t: int) {
    now < t && OnSchedule(p, t) && (forall u :: now < u < t ==> !OnSchedule(p, u))
  }

  /** The worker's `advanceNext`. */
  function Advance(interval: Interval, t: int): int {
    match interval
    case Hourly => SetHours(t, Hours(t) + 1)
    case Daily => SetDate(t, DateOf(Day(t)) + 1)
    case Weekly => SetDate(t, DateOf(Day(t)) + 7)
    case Monthly => SetMonth(t, MonthOf(Day(t)) + 1)
  }

  lemma AdvanceAdds(interval: Interval, t: int)
    ensures Advance(interval, t) - t == match interval
      case Hourly => HOUR
      case Daily => DAY
      case Weekly => 7 * DAY
      case Monthly => DaysInMonth(YearOf(Day(t)), MonthOf(Day(t))) * DAY
  {
    match interval
    case Hourly => SplitTime(t);
    case Daily => SetDateAdds(t, 1);
    case Weekly => SetDateAdds(t, 7);
    case Monthly => NextMonthAdds(t);
  }

  // ── Consecutive scheduled instants ────────────────────────────────────────

  /** Same time of day: whole days apart. */
  lemma WholeDays(t: int, u: int)
    requires TimeWithinDay(t) == TimeWithinDay(u)
    ensures u - t == (Day(u) - Day(t)) * DAY
  {
    SplitTime(t);
    SplitTime(u);
  }

  lemma MonthlyGap(p: Plan, t: int, u: int)
    requires p.interval == Monthly && OnSchedule(p, t) && OnSchedule(p, u) && t < u
    ensures MonthIndex(Day(t)) < MonthIndex(Day(u))
  {
    hide MonthFirst, MonthIndex, DateOf, DaysInMonth, Day, TimeWithinDay;
    WholeDays(t, u);
    MonthFirstSpan(Day(t));
    MonthFirstSpan(Day(u));
    var i, j := MonthIndex(Day(t)), MonthIndex(Day(u));
    if j < i { MonthsIncrease(j, i); }
  }

  /** Scheduled instants are at least this far apart, or a month. */
  lemma Gap(p: Plan, t: int, u: int)
    requires OnSchedule(p, t) && OnSchedule(p, u) && t < u && p.interval != Monthly
    ensures u - t >= match p.interval case Hourly => HOUR case Daily => DAY case _ => 7 * DAY
  {
    hide Day, TimeWithinDay;
    match p.interval
    case Hourly => MultiplesApart(t, u);
    case Daily => WholeDays(t, u);
    case Weekly =>
      WholeDays(t, u);
      WeeksApart(Day(t), Day(u));
  }

  lemma MultiplesApart(t: int, u: int)
    requires t % HOUR == 0 && u % HOUR == 0 && t < u
    ensures u - t >= HOUR
  {
    var a, b := t / HOUR, u / HOUR;
    assert t == HOUR * a && u == HOUR * b;
  }

  lemma WeeksApart(a: int, b: int)
    requires (a + 4) % 7 == (b + 4) % 7
    ensures a < b ==> b - a >= 7
  {
    var i, j := (a + 4) / 7, (b + 4) / 7;
    assert b - a == 7 * (j - i);
  }

  lemma ShiftByDays(t: int, n: int)
    ensures Day(t + n * DAY) == Day(t) + n && TimeWithinDay(t + n * DAY) == TimeWithinDay(t)
  {
    SplitTime(t);
    DayOfMakeDate(Day(t) + n, TimeWithinDay(t));
  }

  lemma AdvanceOnSchedule(p: Plan, t: int)
    requires ValidPlan(p) && OnSchedule(p, t)
    ensures OnSchedule(p, Advance(p.interval, t))
    ensures p.interval == Monthly ==> MonthIndex(Day(Advance(p.interval, t))) == MonthIndex(Day(t)) + 1
  {
    hide MonthFirst, MonthIndex, DateOf, DaysInMonth, Day, TimeWithinDay, SetDate, SetMonth, SetHours;
    AdvanceAdds(p.interval, t);
    match p.interval
    case Hourly =>
    case Daily => ShiftByDays(t, 1);
    case Weekly =>
      ShiftByDays(t, 7);
      assert (Day(t) + 7 + 4) % 7 == (Day(t) + 4) % 7;
    case Monthly => NextMonthKeepsDate(t);
  }

  /** From one scheduled instant, `advanceNext` leads to the very next one. */
  lemma {:induction false} AdvanceIsNext(p: Plan, t: int)
    requires ValidPlan(p) && OnSchedule(p, t)
    ensures NextOnSchedule(p, t, Advance(p.interval, t))
  {
    hide OnSchedule, Advance, MonthIndex, Day;
    var n := Advance(p.interval, t);
    AdvanceAdds(p.interval, t);
    AdvanceOnSchedule(p, t);
    forall u | t < u < n ensures !OnSchedule(p, u) {
      if OnSchedule(p, u) {
        if p.interval == Monthly {
          MonthlyGap(p, t, u);
          MonthlyGap(p, u, n);
        } else {
          Gap(p, t, u);
        }
      }
    }
  }

  /** The `k`-th run after `t`. */
  function Nth(interval: Interval, t: int, k: nat): int {
    if k == 0 then t else Advance(interval, Nth(interval, t, k - 1))
  }

  /** Later runs keep to the schedule: with the day-28 cap every monthly run has the
      same day of month and hour. */
  lemma {:induction false} RunsStayOnSchedule(p: Plan, t: int, k: nat)
    requires ValidPlan(p) && OnSchedule(p, t)
    ensures OnSchedule(p, Nth(p.interval, t, k))
  {
    hide OnSchedule, Advance;
    if k > 0 {
      RunsStayOnSchedule(p, t, k - 1);
      AdvanceIsNext(p, Nth(p.interval, t, k - 1));
    }
  }

  /** The catch-up loop: advance once, then past `now`. It ends for every interval, and
      the result is the first run after `nextRunAt` that lies strictly after `now`. */
  method CatchUp(interval: Interval, nextRunAt: int, now: int) returns (next: int, ghost k: nat)
    ensures k >= 1 && next == Nth(interval, nextRunAt, k) && next > now
    ensures forall j :: 1 <= j < k ==> Nth(interval, nextRunAt, j) <= now
  {
    hide Advance;
    AdvanceAdds(interval, nextRunAt);
    next := Advance(interval, nextRunAt);
    k := 1;
    while next <= now
      invariant k >= 1 && next == Nth(interval, nextRunAt, k)
      invariant forall j :: 1 <= j < k ==> Nth(interval, nextRunAt, j) <= now
      decreases now - next
    {
      AdvanceAdds(interval, next);
      next := Advance(interval, next);
      k := k + 1;
    }
  }

  /** However many periods were missed, a run due on schedule is followed by the first
      scheduled instant strictly after now. */
  lemma {:induction false} CatchUpIsNext(p: Plan, nextRunAt: int, now: int, k: nat)
    requires ValidPlan(p) && OnSchedule(p, nextRunAt) && nextRunAt <= now
    requires k >= 1 && Nth(p.interval, nextRunAt, k) > now
    requires forall j :: 1 <= j < k ==> Nth(p.interval, nextRunAt, j) <= now
    ensures NextOnSchedule(p, now, Nth(p.interval, nextRunAt, k))
  {
    hide OnSchedule, Advance;
    var last := Nth(p.interval, nextRunAt, k - 1);
    assert last <= now;
    RunsStayOnSchedule(p, nextRunAt, k - 1);
    AdvanceIsNext(p, last);
  }

  // ── The first run ─────────────────────────────────────────────────────────

  /** The route's computation of the first `nextRunAt`. */
  method FirstRun(p: Plan, now: int) returns (nextRunAt: int)
    requires ValidPlan(p)
    ensures NextOnSchedule(p, now, nextRunAt)
  {
    match p.interval {
      case Hourly => nextRunAt := FirstHourly(p, now);
      case Daily => nextRunAt := FirstDaily(p, now);
      case Weekly => nextRunAt := FirstWeekly(p, now);
      case Monthly => nextRunAt := FirstMonthly(p, now);
    }
  }

  method FirstHourly(p: Plan, now: int) returns (nextRunAt: int)
    requires p.interval == Hourly
    ensures NextOnSchedule(p, now, nextRunAt)
  {
    nextRunAt := SetHoursSharp(now, Hours(now) + 1);
    HourSplit(now);
    FirstWithin(p, now, nextRunAt, HOUR);
  }

  method FirstDaily(p: Plan, now: int) returns (nextRunAt: int)
    requires ValidPlan(p) && p.interval == Daily
    ensures NextOnSchedule(p, now, nextRunAt)
  {
    hide Day, TimeWithinDay, SetDate, DateOf;
    nextRunAt := SetHoursSharp(now, Hour(p));
    SplitTime(now);
    DayOfMakeDate(Day(now), Hour(p) * HOUR);
    if nextRunAt <= now {
      SetDateAdds(nextRunAt, 1);
      ShiftByDays(nextRunAt, 1);
      nextRunAt := SetDate(nextRunAt, DateOf(Day(nextRunAt)) + 1);
    }
    FirstWithin(p, now, nextRunAt, DAY);
  }

  method FirstWeekly(p: Plan, now: int) returns (nextRunAt: int)
    requires ValidPlan(p) && p.interval == Weekly
    ensures NextOnSchedule(p, now, nextRunAt)
  {
    hide Day, TimeWithinDay, SetDate, DateOf;
    nextRunAt := SetHoursSharp(now, Hour(p));
    SplitTime(now);
    DayOfMakeDate(Day(now), Hour(p) * HOUR);
    var currentDay := WeekDay(nextRunAt);
    var daysUntil := (TargetDay(p) - currentDay + 7) % 7;
    WeekDays(Day(now), TargetDay(p));
    if daysUntil == 0 && nextRunAt <= now { daysUntil := 7; }
    SetDateAdds(nextRunAt, daysUntil);
    ShiftByDays(nextRunAt, daysUntil);
    nextRunAt := SetDate(nextRunAt, DateOf(Day(nextRunAt)) + daysUntil);
    FirstWithin(p, now, nextRunAt, 7 * DAY);
  }

  method FirstMonthly(p: Plan, now: int) returns (nextRunAt: int)
    requires ValidPlan(p) && p.interval == Monthly
    ensures NextOnSchedule(p, now, nextRunAt)
  {
    hide OnSchedule, SetDate, SetHoursSharp, SetMonth;
    nextRunAt := SetDate(now, TargetDate(p));
    nextRunAt := SetHoursSharp(nextRunAt, Hour(p));
    InCurrentMonth(p, now, nextRunAt);
    if nextRunAt <= now {
      ghost var passed := nextRunAt;
      AdvanceIsNext(p, passed);
      nextRunAt := SetMonth(nextRunAt, MonthOf(Day(nextRunAt)) + 1);
      assert nextRunAt > now by { NextMonthStartsLater(p, now, passed); }
    } else {
      FirstOfMonth(p, now, nextRunAt);
    }
  }

  lemma HourSplit(t: int)
    ensures MakeDate(Day(t), Hours(t) * HOUR) <= t < MakeDate(Day(t), Hours(t) * HOUR) + HOUR
    ensures MakeDate(Day(t), (Hours(t) + 1) * HOUR) % HOUR == 0
  {
    hide Day, TimeWithinDay;
    SplitTime(t);
    WholeHours(24 * Day(t) + Hours(t) + 1);
  }

  lemma WholeHours(n: int)
    ensures (n * HOUR) % HOUR == 0
  {
  }

  lemma WeekDays(day: int, target: int)
    requires 0 <= target <= 6
    ensures var n := (target - (day + 4) % 7 + 7) % 7; 0 <= n <= 6 && (day + n + 4) % 7 == target && (day + 7 + 4) % 7 == (day + 4) % 7
  {
  }

  /** A scheduled instant less than one period ahead is the first one. */
  lemma FirstWithin(p: Plan, now: int, t: int, period: int)
    requires p.interval != Monthly && period == match p.interval case Hourly => HOUR case Daily => DAY case _ => 7 * DAY
    requires now < t <= now + period && OnSchedule(p, t)
    ensures NextOnSchedule(p, now, t)
  {
    hide OnSchedule;
    forall u | now < u < t ensures !OnSchedule(p, u) { if OnSchedule(p, u) { Gap(p, u, t); } }
  }

  /** The target date of the current month is a scheduled instant of that month. */
  lemma InCurrentMonth(p: Plan, now: int, t: int)
    requires ValidPlan(p) && p.interval == Monthly && t == SetHoursSharp(SetDate(now, TargetDate(p)), Hour(p))
    ensures OnSchedule(p, t) && MonthIndex(Day(t)) == MonthIndex(Day(now))
  {
    hide MonthIndex, MonthFirst, DateOf, Day, TimeWithinDay;
    var y, m := YearOf(Day(now)), MonthOf(Day(now));
    PlainMakeDay(y, m, TargetDate(p));
    PlainMakeDay(y, m, DateOf(Day(now)));
    MakeDayParts(Day(now));
    MonthFirstSpan(Day(now));
    SplitTime(now);
    var day := MonthFirst(MonthIndex(Day(now))) + TargetDate(p) - 1;
    DayOfMakeDate(day, TimeWithinDay(now));
    DayOfMakeDate(day, Hour(p) * HOUR);
    MonthIndexUnique(day, MonthIndex(Day(now)));
  }

  lemma FirstOfMonth(p: Plan, now: int, t: int)
    requires p.interval == Monthly && OnSchedule(p, t) && MonthIndex(Day(t)) == MonthIndex(Day(now)) && now < t
    ensures NextOnSchedule(p, now, t)
  {
    hide OnSchedule, MonthIndex, Day;
    forall u | now < u < t && OnSchedule(p, u) ensures false {
      MonthlyGap(p, u, t);
      LaterMonth(now, u);
    }
  }

  lemma LaterMonth(t: int, u: int)
    requires t <= u
    ensures MonthIndex(Day(t)) <= MonthIndex(Day(u))
  {
    hide MonthIndex, MonthFirst, Day, TimeWithinDay, DateOf;
    SplitTime(t);
    SplitTime(u);
    MonthFirstSpan(Day(t));
    MonthFirstSpan(Day(u));
    var i, j := MonthIndex(Day(t)), MonthIndex(Day(u));
    if j + 1 < i { MonthsIncrease(j + 1, i); }
  }

  /** Having passed this month's instant, next month's lies ahead. */
  lemma NextMonthStartsLater(p: Plan, now: int, t: int)
    requires ValidPlan(p) && p.interval == Monthly && OnSchedule(p, t) && MonthIndex(Day(t)) == MonthIndex(Day(now))
    ensures Advance(Monthly, t) > now
  {
    hide Advance, OnSchedule, MonthIndex, Day;
    AdvanceOnSchedule(p, t);
    if Advance(Monthly, t) <= now { LaterMonth(Advance(Monthly, t), now); }
  }
}
