/** `advanceBillingDate`. */
module BillingDates {
  import opened Calendar

  datatype Interval = Weekly | Monthly | Yearly

  function Advance(from: int, interval: Interval): int {
    match interval
    case Weekly => SetDate(from, DateOf(Day(from)) + 7)
    case Monthly => SetMonth(from, MonthOf(Day(from)) + 1)
    case Yearly => SetFullYear(from, YearOf(Day(from)) + 1)
  }

  /** The copied date is changed in place, one `if` per interval. */
  method AdvanceBillingDate(from: int, interval: Interval) returns (next: int)
    ensures next == Advance(from, interval) && next > from
  {
    AdvanceAdds(from, interval);
    next := from;
    if interval == Weekly { next := SetDate(next, DateOf(Day(next)) + 7); }
    if interval == Monthly { next := SetMonth(next, MonthOf(Day(next)) + 1); }
    if interval == Yearly { next := SetFullYear(next, YearOf(Day(next)) + 1); }
  }

  /** The shortest period an interval can have. */
  function ShortestDays(interval: Interval): int {
    match interval case Weekly => 7 case Monthly => 28 case Yearly => 365
  }

  /** For every date: a week is 7 days, a month the length of the starting month (28 to
      31 days), a year 365 or 366. */
  lemma AdvanceAdds(from: int, interval: Interval)
    ensures Advance(from, interval) - from == DAY * match interval
      case Weekly => 7
      case Monthly => DaysInMonth(YearOf(Day(from)), MonthOf(Day(from)))
      case Yearly => DaysInYear(if MonthOf(Day(from)) < 2 then YearOf(Day(from)) else YearOf(Day(from)) + 1)
    ensures Advance(from, interval) >= from + ShortestDays(interval) * DAY
  {
    match interval
    case Weekly => SetDateAdds(from, 7);
    case Monthly => NextMonthAdds(from);
    case Yearly => NextYearAdds(from);
  }
}
