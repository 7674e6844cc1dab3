/** JavaScript dates in UTC, as section 21.4.1 of ECMA-262 defines them: a time value
    is a number of milliseconds, and setters go through MakeDay, which lets a day
    overflow into the next month. */
module Calendar {
  import opened Arithmetic

  const HOUR: int := 3_600_000
  const DAY: int := 86_400_000

  // ── Years and months ──────────────────────────────────────────────────────

  /** The day number, counted from 1970, on which year `y` starts. */
  function DayFromYear(y: int): int
    decreases if y >= 1970 then y - 1970 else 1970 - y
  {
    if y == 1970 then 0
    else if y > 1970 then DayFromYear(y - 1) + DaysInYear(y - 1)
    else DayFromYear(y + 1) - DaysInYear(y)
  }

  predicate LeapYear(y: int) {
    y % 4 == 0 && (y % 100 != 0 || y % 400 == 0)
  }

  function DaysInYear(y: int): int {
    if LeapYear(y) then 366 else 365
  }

  /** Days of the year before month `m`, counted from 0; 12 gives the whole year. */
  function DaysBefore(y: int, m: int): int
    requires 0 <= m <= 12
  {
    var leap := if LeapYear(y) then 1 else 0;
    match m
    case 0 => 0
    case 1 => 31
    case 2 => 59 + leap
    case 3 => 90 + leap
    case 4 => 120 + leap
    case 5 => 151 + leap
    case 6 => 181 + leap
    case 7 => 212 + leap
    case 8 => 243 + leap
    case 9 => 273 + leap
    case 10 => 304 + leap
    case 11 => 334 + leap
    case _ => 365 + leap
  }

  function DaysInMonth(y: int, m: int): (n: int)
    requires 0 <= m < 12
    ensures 28 <= n <= 31
  {
    DaysBefore(y, m + 1) - DaysBefore(y, m)
  }

  /** Thirty days have April, June, September and November. */
  lemma MonthLengths(y: int, m: int)
    requires 0 <= m < 12
    ensures DaysInMonth(y, m) == if m in {3, 5, 8, 10} then 30
                                 else if m != 1 then 31
                                 else if y % 400 == 0 || (y % 4 == 0 && y % 100 != 0) then 29 else 28
  {
  }

  lemma YearLength(y: int)
    ensures DayFromYear(y + 1) - DayFromYear(y) == DaysInYear(y)
  {
  }

  lemma {:induction false} YearsIncrease(y: int, z: int)
    requires y < z
    ensures DayFromYear(y) + 365 <= DayFromYear(z)
    decreases z - y
  {
    YearLength(z - 1);
    if y < z - 1 { YearsIncrease(y, z - 1); }
  }

  lemma {:induction false} YearBounds(y: int)
    ensures 365 * (y - 1970) <= DayFromYear(y) <= 366 * (y - 1970) || 366 * (y - 1970) <= DayFromYear(y) <= 365 * (y - 1970)
    decreases if y >= 1970 then y - 1970 else 1970 - y
  {
    if y > 1970 { YearBounds(y - 1); }
    if y < 1970 { YearBounds(y + 1); }
  }

  /** The closed form of section 21.4.1.3. */
  lemma {:induction false} DayFromYearFormula(y: int)
    ensures DayFromYear(y) == 365 * (y - 1970) + (y - 1969) / 4 - (y - 1901) / 100 + (y - 1601) / 400
    decreases if y >= 1970 then y - 1970 else 1970 - y
  {
    if y > 1970 {
      DayFromYearFormula(y - 1);
      LeapDayCount(y - 1);
    }
    if y < 1970 {
      DayFromYearFormula(y + 1);
      LeapDayCount(y);
    }
  }

  lemma LeapDayCount(y: int)
    ensures (y - 1968) / 4 - (y - 1900) / 100 + (y - 1600) / 400 ==
            (y - 1969) / 4 - (y - 1901) / 100 + (y - 1601) / 400 + if LeapYear(y) then 1 else 0
  {
    NextMultiple(y, 492, 4);
    NextMultiple(y, 19, 100);
    NextMultiple(y, 4, 400);
    if y % 400 == 0 { MultipleOfBoth(y, 4, 100); }
    if y % 100 == 0 { MultipleOfBoth(y, 25, 4); }
  }

  function SearchYear(day: int, y: int): (r: int)
    requires DayFromYear(y) <= day
    ensures DayFromYear(r) <= day < DayFromYear(r + 1)
    decreases day - DayFromYear(y)
  {
    YearLength(y);
    if day < DayFromYear(y + 1) then y else SearchYear(day, y + 1)
  }

  /** YearFromTime: the largest year that starts no later than `day`. */
  function YearOf(day: int): (y: int)
    ensures DayFromYear(y) <= day < DayFromYear(y + 1)
  {
    var estimate := 1970 + (if day >= 0 then day / 366 else day / 365);
    YearBounds(estimate);
    SearchYear(day, estimate)
  }

  lemma YearUnique(day: int, y: int)
    requires DayFromYear(y) <= day < DayFromYear(y + 1)
    ensures YearOf(day) == y
  {
    var r := YearOf(day);
    if r < y { if r + 1 < y { YearsIncrease(r + 1, y); } }
    if y < r { if y + 1 < r { YearsIncrease(y + 1, r); } }
  }

  /** MonthFromTime, 0 to 11. */
  function MonthOf(day: int): (m: int)
    ensures 0 <= m < 12
    ensures DaysBefore(YearOf(day), m) <= day - DayFromYear(YearOf(day)) < DaysBefore(YearOf(day), m + 1)
  {
    var y := YearOf(day);
    var d := day - DayFromYear(y);
    YearLength(y);
    if d < DaysBefore(y, 6) then
      if d < DaysBefore(y, 3) then
        if d < DaysBefore(y, 1) then 0 else if d < DaysBefore(y, 2) then 1 else 2
      else if d < DaysBefore(y, 4) then 3 else if d < DaysBefore(y, 5) then 4 else 5
    else if d < DaysBefore(y, 9) then
      if d < DaysBefore(y, 7) then 6 else if d < DaysBefore(y, 8) then 7 else 8
    else if d < DaysBefore(y, 10) then 9 else if d < DaysBefore(y, 11) then 10 else 11
  }

  /** DateFromTime, 1 to 31. */
  function DateOf(day: int): (d: int)
    ensures 1 <= d <= DaysInMonth(YearOf(day), MonthOf(day))
  {
    day - DayFromYear(YearOf(day)) - DaysBefore(YearOf(day), MonthOf(day)) + 1
  }

  /** MakeDay: month and date may be out of range. */
  function MakeDay(y: int, m: int, d: int): int {
    DayFromYear(y + m / 12) + DaysBefore(y + m / 12, m % 12) + d - 1
  }

  lemma MakeDayParts(day: int)
    ensures MakeDay(YearOf(day), MonthOf(day), DateOf(day)) == day
  {
  }

  lemma MonthsOrdered(y: int, m: int, n: int)
    requires 0 <= m < n <= 12
    ensures DaysBefore(y, m) + 28 <= DaysBefore(y, n)
  {
  }

  lemma MonthUnique(day: int, m: int)
    requires 0 <= m < 12
    requires DaysBefore(YearOf(day), m) <= day - DayFromYear(YearOf(day)) < DaysBefore(YearOf(day), m + 1)
    ensures MonthOf(day) == m
  {
    var y, r := YearOf(day), MonthOf(day);
    if r < m { if r + 1 < m { MonthsOrdered(y, r + 1, m); } }
    if m < r { if m + 1 < r { MonthsOrdered(y, m + 1, r); } }
  }

  lemma PlainMakeDay(y: int, m: int, d: int)
    requires 0 <= m < 12
    ensures MakeDay(y, m, d) == DayFromYear(y) + DaysBefore(y, m) + d - 1
  {
    hide DayFromYear, DaysBefore;
    assert m / 12 == 0 && m % 12 == m;
  }

  /** A date that exists reads back as it was made. */
  lemma PartsOfMakeDay(y: int, m: int, d: int)
    requires 0 <= m < 12 && 1 <= d <= DaysInMonth(y, m)
    ensures YearOf(MakeDay(y, m, d)) == y && MonthOf(MakeDay(y, m, d)) == m && DateOf(MakeDay(y, m, d)) == d
  {
    YearLength(y);
    PlainMakeDay(y, m, d);
    if m > 0 { MonthsOrdered(y, 0, m); }
    if m < 11 { MonthsOrdered(y, m + 1, 12); }
    YearUnique(MakeDay(y, m, d), y);
    MonthUnique(MakeDay(y, m, d), m);
  }

  /** Months in order since year 0, so that consecutive months have consecutive numbers. */
  function MonthIndex(day: int): int {
    12 * YearOf(day) + MonthOf(day)
  }

  function MonthFirst(index: int): int {
    MakeDay(0, index, 1)
  }

  lemma MonthFirstSpan(day: int)
    ensures MonthFirst(MonthIndex(day)) == day - DateOf(day) + 1
    ensures MonthFirst(MonthIndex(day)) <= day < MonthFirst(MonthIndex(day) + 1)
    ensures MonthFirst(MonthIndex(day) + 1) - MonthFirst(MonthIndex(day)) == DaysInMonth(YearOf(day), MonthOf(day))
  {
    var y, m := YearOf(day), MonthOf(day);
    YearLength(y);
    assert (12 * y + m) / 12 == y && (12 * y + m) % 12 == m;
    if m == 11 {
      assert (12 * y + 12) / 12 == y + 1 && (12 * y + 12) % 12 == 0;
    } else {
      assert (12 * y + m + 1) / 12 == y && (12 * y + m + 1) % 12 == m + 1;
    }
  }

  lemma MonthLength(index: int)
    ensures MonthFirst(index) + 28 <= MonthFirst(index + 1) <= MonthFirst(index) + 31
  {
    var y, m := index / 12, index % 12;
    PartsOfMakeDay(y, m, 1);
    PlainMakeDay(y, m, 1);
    assert MonthFirst(index) == MakeDay(y, m, 1) && MonthIndex(MonthFirst(index)) == index;
    MonthFirstSpan(MonthFirst(index));
  }

  lemma {:induction false} MonthsIncrease(i: int, j: int)
    requires i < j
    ensures MonthFirst(i) + 28 <= MonthFirst(j)
    decreases j - i
  {
    MonthLength(j - 1);
    if i < j - 1 { MonthsIncrease(i, j - 1); }
  }

  lemma MonthIndexUnique(day: int, index: int)
    requires MonthFirst(index) <= day < MonthFirst(index + 1)
    ensures MonthIndex(day) == index && DateOf(day) == day - MonthFirst(index) + 1
  {
    hide MonthFirst, MonthIndex, DateOf;
    var r := MonthIndex(day);
    MonthFirstSpan(day);
    if r < index { if r + 1 < index { MonthsIncrease(r + 1, index); } }
    if index < r { if index + 1 < r { MonthsIncrease(index + 1, r); } }
  }

  // ── Time values ───────────────────────────────────────────────────────────

  function Day(t: int): int { t / DAY }

  function TimeWithinDay(t: int): int { t % DAY }

  function MakeDate(day: int, time: int): int { day * DAY + time }

  /** Sunday is 0. */
  function WeekDay(t: int): int { (Day(t) + 4) % 7 }

  /** The leap day of 2024, a Thursday, was 19,782 days after the first of January 1970. */
  lemma LeapDay2024(t: int)
    requires 19_782 * DAY <= t < 19_783 * DAY
    ensures YearOf(Day(t)) == 2024 && MonthOf(Day(t)) == 1 && DateOf(Day(t)) == 29 && WeekDay(t) == 4
  {
    hide DayFromYear, YearOf, MonthOf, DateOf;
    DayFromYearFormula(2024);
    PlainMakeDay(2024, 1, 29);
    PartsOfMakeDay(2024, 1, 29);
  }

  function Hours(t: int): int { TimeWithinDay(t) / HOUR }

  function SetDate(t: int, d: int): int {
    MakeDate(MakeDay(YearOf(Day(t)), MonthOf(Day(t)), d), TimeWithinDay(t))
  }

  function SetMonth(t: int, m: int): int {
    MakeDate(MakeDay(YearOf(Day(t)), m, DateOf(Day(t))), TimeWithinDay(t))
  }

  function SetFullYear(t: int, y: int): int {
    MakeDate(MakeDay(y, MonthOf(Day(t)), DateOf(Day(t))), TimeWithinDay(t))
  }

  /** setHours(h), keeping minutes, seconds and milliseconds. */
  function SetHours(t: int, h: int): int {
    MakeDate(Day(t), h * HOUR + TimeWithinDay(t) % HOUR)
  }

  /** setHours(h, 0, 0, 0). */
  function SetHoursSharp(t: int, h: int): int {
    MakeDate(Day(t), h * HOUR)
  }

  lemma DayOfMakeDate(day: int, time: int)
    requires 0 <= time < DAY
    ensures Day(MakeDate(day, time)) == day && TimeWithinDay(MakeDate(day, time)) == time
  {
  }

  lemma SplitTime(t: int)
    ensures MakeDate(Day(t), TimeWithinDay(t)) == t && 0 <= TimeWithinDay(t) < DAY
  {
  }

  /** Moving by days is plain addition. */
  lemma SetDateAdds(t: int, n: int)
    ensures SetDate(t, DateOf(Day(t)) + n) == t + n * DAY
  {
    SplitTime(t);
  }

  /** One more month: exactly the length of the month `t` is in, also when the day
      does not exist in the next month and overflows. */
  lemma NextMonthAdds(t: int)
    ensures SetMonth(t, MonthOf(Day(t)) + 1) == t + DaysInMonth(YearOf(Day(t)), MonthOf(Day(t))) * DAY
  {
    SplitTime(t);
    var y, m, d := YearOf(Day(t)), MonthOf(Day(t)), DateOf(Day(t));
    YearLength(y);
    if m == 11 {
      assert MakeDay(y, 12, d) == DayFromYear(y + 1) + d - 1;
    }
    assert MakeDay(y, m + 1, d) == Day(t) + DaysInMonth(y, m);
  }

  lemma FebruaryShift(y: int, m: int)
    requires 0 <= m < 12
    ensures DaysBefore(y + 1, m) - DaysBefore(y, m) == if m < 2 then 0 else DaysInYear(y + 1) - DaysInYear(y)
  {
  }

  /** One more year: the length of the year whose February 29, if any, lies ahead. */
  lemma NextYearAdds(t: int)
    ensures var y, m := YearOf(Day(t)), MonthOf(Day(t));
      SetFullYear(t, y + 1) == t + DaysInYear(if m < 2 then y else y + 1) * DAY
  {
    SplitTime(t);
    var y, m, d := YearOf(Day(t)), MonthOf(Day(t)), DateOf(Day(t));
    YearLength(y);
    PlainMakeDay(y + 1, m, d);
    FebruaryShift(y, m);
    assert MakeDay(y + 1, m, d) == Day(t) + DaysInYear(if m < 2 then y else y + 1);
  }

  /** With a date that every month has, the next month keeps it. */
  lemma NextMonthKeepsDate(t: int)
    requires DateOf(Day(t)) <= 28
    ensures var n := SetMonth(t, MonthOf(Day(t)) + 1);
      && DateOf(Day(n)) == DateOf(Day(t)) && TimeWithinDay(n) == TimeWithinDay(t)
      && MonthIndex(Day(n)) == MonthIndex(Day(t)) + 1
  {
    var n := SetMonth(t, MonthOf(Day(t)) + 1);
    NextMonthAdds(t);
    SplitTime(t);
    var i := MonthIndex(Day(t));
    MonthFirstSpan(Day(t));
    MonthLength(i + 1);
    DayOfMakeDate(Day(t) + DaysInMonth(YearOf(Day(t)), MonthOf(Day(t))), TimeWithinDay(t));
    MonthIndexUnique(Day(n), i + 1);
  }
}
