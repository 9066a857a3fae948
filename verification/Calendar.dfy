/** The Gregorian calendar, the federal holidays of the source, and the business day
    (internal/settlement/cutoff.go:60-214).  Dates and weekdays are computed here rather than taken
    from a library: a day has a number, numbers go up by one, and the weekday is the number modulo
    seven (0 is Sunday). */
module Calendar {

  datatype Date = Date(year: int, month: int, day: int)

  predicate IsLeap(y: int) {
    y % 4 == 0 && (y % 100 != 0 || y % 400 == 0)
  }

  function DaysIn(y: int, m: int): int {
    if m == 2 then (if IsLeap(y) then 29 else 28)
    else if m == 4 || m == 6 || m == 9 || m == 11 then 30
    else 31
  }

  predicate IsDate(d: Date) {
    1 <= d.month <= 12 && 1 <= d.day <= DaysIn(d.year, d.month)
  }

  function DaysBeforeYear(y: int): int {
    365 * (y - 1) + (y - 1) / 4 - (y - 1) / 100 + (y - 1) / 400
  }

  function DaysBeforeMonth(y: int, m: int): int
    requires 1 <= m
    decreases m
  {
    if m == 1 then 0 else DaysBeforeMonth(y, m - 1) + DaysIn(y, m - 1)
  }

  /** 1 January of year 1, a Monday, is day 1. */
  function DayNumber(d: Date): int
    requires IsDate(d)
  {
    DaysBeforeYear(d.year) + DaysBeforeMonth(d.year, d.month) + d.day
  }

  function Weekday(d: Date): int
    requires IsDate(d)
  {
    DayNumber(d) % 7
  }

  const SUNDAY := 0
  const MONDAY := 1
  const THURSDAY := 4
  const FRIDAY := 5
  const SATURDAY := 6

  /** AddDate(0, 0, 1). */
  function NextDay(d: Date): (n: Date)
    requires IsDate(d)
    ensures IsDate(n)
  {
    if d.day < DaysIn(d.year, d.month) then Date(d.year, d.month, d.day + 1)
    else if d.month < 12 then Date(d.year, d.month + 1, 1)
    else Date(d.year + 1, 1, 1)
  }

  lemma {:induction false} NextQuotient(y: int, k: int)
    requires k == 4 || k == 100 || k == 400
    ensures y / k == (y - 1) / k + if y % k == 0 then 1 else 0
  {
  }

  lemma {:induction false} CenturiesAreFourfold(y: int)
    ensures y % 400 == 0 ==> y % 100 == 0
    ensures y % 100 == 0 ==> y % 4 == 0
  {
  }

  lemma {:induction false} YearLength(y: int)
    ensures DaysBeforeYear(y + 1) == DaysBeforeYear(y) + if IsLeap(y) then 366 else 365
  {
    NextQuotient(y, 4);
    NextQuotient(y, 100);
    NextQuotient(y, 400);
    CenturiesAreFourfold(y);
  }

  lemma {:induction false} MonthsOfYear(y: int)
    ensures DaysBeforeMonth(y, 13) == if IsLeap(y) then 366 else 365
  {
    assert DaysBeforeMonth(y, 3) == 31 + DaysIn(y, 2);
    assert DaysBeforeMonth(y, 5) == DaysBeforeMonth(y, 3) + 61;
    assert DaysBeforeMonth(y, 7) == DaysBeforeMonth(y, 5) + 61;
    assert DaysBeforeMonth(y, 9) == DaysBeforeMonth(y, 7) + 62;
    assert DaysBeforeMonth(y, 11) == DaysBeforeMonth(y, 9) + 61;
    assert DaysBeforeMonth(y, 13) == DaysBeforeMonth(y, 11) + 61;
  }

  lemma {:induction false} NewYear(y: int)
    ensures DayNumber(Date(y + 1, 1, 1)) == DayNumber(Date(y, 12, 31)) + 1
  {
    YearLength(y);
    MonthsOfYear(y);
  }

  lemma {:induction false} SevenDays(a: int, b: int)
    requires b == a + 1
    ensures b % 7 == (a % 7 + 1) % 7
  {
  }

  /** The next day has the next number, so the weekday steps by one. */
  lemma {:induction false} NextDayNumber(d: Date)
    requires IsDate(d)
    ensures DayNumber(NextDay(d)) == DayNumber(d) + 1
    ensures Weekday(NextDay(d)) == (Weekday(d) + 1) % 7
  {
    var y, m := d.year, d.month;
    if d.day < DaysIn(y, m) {
    } else if m < 12 {
      assert DaysBeforeMonth(y, m + 1) == DaysBeforeMonth(y, m) + DaysIn(y, m);
    } else {
      NewYear(y);
    }
    SevenDays(DayNumber(d), DayNumber(NextDay(d)));
  }

  lemma {:induction false} MonthsAddUp(y: int, m: int, n: int)
    requires 1 <= m <= n <= 13
    ensures DaysBeforeMonth(y, m) <= DaysBeforeMonth(y, n)
    ensures m < n ==> DaysBeforeMonth(y, m) + DaysIn(y, m) <= DaysBeforeMonth(y, n)
    decreases n - m
  {
    if m < n {
      MonthsAddUp(y, m, n - 1);
    }
  }

  lemma {:induction false} YearsAddUp(y: int, z: int)
    requires y <= z
    ensures DaysBeforeYear(y) <= DaysBeforeYear(z)
    decreases z - y
  {
    if y < z {
      YearsAddUp(y, z - 1);
      YearLength(z - 1);
    }
  }

  /** Different dates have different numbers. */
  lemma {:induction false} NumbersIdentify(a: Date, b: Date)
    requires IsDate(a) && IsDate(b) && DayNumber(a) == DayNumber(b)
    ensures a == b
  {
    if a.year < b.year {
      LaterYearLaterNumber(a, b);
    } else if b.year < a.year {
      LaterYearLaterNumber(b, a);
    } else if a.month < b.month {
      MonthsAddUp(a.year, a.month, b.month);
    } else if b.month < a.month {
      MonthsAddUp(a.year, b.month, a.month);
    }
  }

  lemma {:induction false} LaterYearLaterNumber(a: Date, b: Date)
    requires IsDate(a) && IsDate(b) && a.year < b.year
    ensures DayNumber(a) < DayNumber(b)
  {
    DateWithinYear(a);
    DateWithinYear(b);
    YearsAddUp(a.year + 1, b.year);
  }

  lemma {:induction false} DateWithinYear(d: Date)
    requires IsDate(d)
    ensures DaysBeforeYear(d.year) < DayNumber(d) <= DaysBeforeYear(d.year + 1)
  {
    MonthsAddUp(d.year, 1, d.month);
    MonthsAddUp(d.year, d.month, 13);
    MonthsOfYear(d.year);
    YearLength(d.year);
  }

  function DayBefore(d: Date): (e: Date)
    requires IsDate(d)
    ensures IsDate(e) && NextDay(e) == d
  {
    if d.day > 1 then Date(d.year, d.month, d.day - 1)
    else if d.month > 1 then Date(d.year, d.month - 1, DaysIn(d.year, d.month - 1))
    else Date(d.year - 1, 12, 31)
  }

  lemma {:induction false} DayBeforeNumber(d: Date)
    requires IsDate(d)
    ensures DayNumber(DayBefore(d)) == DayNumber(d) - 1
  {
    NextDayNumber(DayBefore(d));
  }

  /** The date with a number: every number has one. */
  function DateOf(n: int): (d: Date)
    ensures IsDate(d) && DayNumber(d) == n
    decreases if n >= 1 then n - 1 else 1 - n
  {
    if n == 1 then Date(1, 1, 1)
    else if n > 1 then
      var d := DateOf(n - 1);
      NextDayNumber(d);
      NextDay(d)
    else
      var d := DateOf(n + 1);
      DayBeforeNumber(d);
      DayBefore(d)
  }

  // ---- the holidays as the source computes them ----

  /** The rules of isFederalHoliday, in the order of the source. */
  predicate RuleHoliday(m: int, d: int, wd: int) {
    || (m == 1 && d == 1)
    || (m == 1 && d == 2 && wd == MONDAY)
    || (m == 12 && d == 31 && wd == FRIDAY)
    || (m == 1 && wd == MONDAY && 15 <= d <= 21)
    || (m == 2 && wd == MONDAY && 15 <= d <= 21)
    || (m == 5 && wd == MONDAY && d >= 25)
    || (m == 6 && d == 19)
    || (m == 6 && d == 20 && wd == MONDAY)
    || (m == 6 && d == 18 && wd == FRIDAY)
    || (m == 7 && d == 4)
    || (m == 7 && d == 5 && wd == MONDAY)
    || (m == 7 && d == 3 && wd == FRIDAY)
    || (m == 9 && wd == MONDAY && d <= 7)
    || (m == 10 && wd == MONDAY && 8 <= d <= 14)
    || (m == 11 && d == 11)
    || (m == 11 && d == 12 && wd == MONDAY)
    || (m == 11 && d == 10 && wd == FRIDAY)
    || (m == 11 && wd == THURSDAY && 22 <= d <= 28)
    || (m == 12 && d == 25)
    || (m == 12 && d == 26 && wd == MONDAY)
    || (m == 12 && d == 24 && wd == FRIDAY)
  }

  /** explicitHolidays, the list of 2025 and 2026. */
  predicate IsListed(d: Date) {
    || (d.year == 2025 && ListedIn2025(d.month, d.day))
    || (d.year == 2026 && ListedIn2026(d.month, d.day))
  }

  predicate ListedIn2025(m: int, d: int) {
    || (m == 1 && (d == 1 || d == 20)) || (m == 2 && d == 17) || (m == 5 && d == 26) || (m == 6 && d == 19)
    || (m == 7 && d == 4) || (m == 9 && d == 1) || (m == 10 && d == 13) || (m == 11 && (d == 11 || d == 27))
    || (m == 12 && d == 25)
  }

  predicate ListedIn2026(m: int, d: int) {
    || (m == 1 && (d == 1 || d == 19)) || (m == 2 && d == 16) || (m == 5 && d == 25) || (m == 6 && d == 19)
    || (m == 7 && d == 3) || (m == 9 && d == 7) || (m == 10 && d == 12) || (m == 11 && (d == 11 || d == 26))
    || (m == 12 && d == 25)
  }

  predicate IsFederalHoliday(d: Date)
    requires IsDate(d)
  {
    RuleHoliday(d.month, d.day, Weekday(d)) || IsListed(d)
  }

  predicate IsBusinessDay(d: Date)
    requires IsDate(d)
  {
    Weekday(d) != SATURDAY && Weekday(d) != SUNDAY && !IsFederalHoliday(d)
  }

  /** 1 January 2025 is a Wednesday, 1 January 2026 a Thursday. */
  lemma {:induction false} ListedYears()
    ensures DaysBeforeYear(2025) % 7 == 2 && DaysBeforeYear(2026) % 7 == 3
  {
  }

  lemma {:induction false} CommonYear(y: int, m: int)
    requires !IsLeap(y) && 1 <= m <= 12
    ensures DaysBeforeMonth(y, m) == CommonDays(m)
    decreases m
  {
    if m > 1 {
      CommonYear(y, m - 1);
    }
  }

  lemma {:induction false} AddWeekdays(a: int, b: int)
    ensures (a + b) % 7 == (a % 7 + b) % 7
  {
  }

  lemma {:induction false} WeekdayInYear(d: Date)
    requires IsDate(d)
    ensures Weekday(d) == (DaysBeforeYear(d.year) % 7 + (DaysBeforeMonth(d.year, d.month) + d.day)) % 7
  {
    AddWeekdays(DaysBeforeYear(d.year), DaysBeforeMonth(d.year, d.month) + d.day);
  }

  /** Days before each month of a common year. */
  function CommonDays(m: int): int {
    if m <= 1 then 0 else if m == 2 then 31 else if m == 3 then 59 else if m == 4 then 90 else if m == 5 then 120
    else if m == 6 then 151 else if m == 7 then 181 else if m == 8 then 212 else if m == 9 then 243
    else if m == 10 then 273 else if m == 11 then 304 else 334
  }

  lemma {:induction false} ListedByNumbers(m: int, d: int, wd: int)
    requires
      || (ListedIn2025(m, d) && wd == (CommonDays(m) + d + 2) % 7)
      || (ListedIn2026(m, d) && wd == (CommonDays(m) + d + 3) % 7)
    ensures RuleHoliday(m, d, wd)
  {
  }

  lemma {:induction false} ListedIsRuled(d: Date)
    requires IsDate(d) && IsListed(d)
    ensures RuleHoliday(d.month, d.day, Weekday(d))
  {
    WeekdayInYear(d);
    ListedYears();
    CommonYear(d.year, d.month);
    ListedByNumbers(d.month, d.day, Weekday(d));
  }

  /** The explicit list for 2025 and 2026 adds no date to the rules. */
  lemma {:induction false} ExplicitListAddsNothing(d: Date)
    requires IsDate(d)
    ensures IsFederalHoliday(d) <==> RuleHoliday(d.month, d.day, Weekday(d))
  {
    if IsListed(d) {
      ListedIsRuled(d);
    }
  }

  // ---- the holidays as the statute names them ----

  /** How many of the first k days of the month fall on the weekday. */
  function CountWeekday(y: int, m: int, wd: int, k: nat): nat
    requires 1 <= m <= 12 && k <= DaysIn(y, m)
  {
    if k == 0 then 0
    else CountWeekday(y, m, wd, k - 1) + if Weekday(Date(y, m, k)) == wd then 1 else 0
  }

  /** The nth such weekday of its month. */
  predicate IsNth(d: Date, n: nat, wd: int)
    requires IsDate(d)
  {
    Weekday(d) == wd && CountWeekday(d.year, d.month, wd, d.day) == n
  }

  /** The last such weekday of its month. */
  predicate IsLast(d: Date, wd: int)
    requires IsDate(d)
  {
    && Weekday(d) == wd
    && CountWeekday(d.year, d.month, wd, DaysIn(d.year, d.month)) == CountWeekday(d.year, d.month, wd, d.day)
  }

  /** 5 U.S.C. section 6103(a): New Year's Day; Martin Luther King, Jr.; Washington's Birthday;
      Memorial Day; Juneteenth; Independence Day; Labor Day; Columbus Day; Veterans Day;
      Thanksgiving Day; Christmas Day. */
  predicate IsStatutory(d: Date)
    requires IsDate(d)
  {
    || (d.month == 1 && d.day == 1)
    || (d.month == 1 && IsNth(d, 3, MONDAY))
    || (d.month == 2 && IsNth(d, 3, MONDAY))
    || (d.month == 5 && IsLast(d, MONDAY))
    || (d.month == 6 && d.day == 19)
    || (d.month == 7 && d.day == 4)
    || (d.month == 9 && IsNth(d, 1, MONDAY))
    || (d.month == 10 && IsNth(d, 2, MONDAY))
    || (d.month == 11 && d.day == 11)
    || (d.month == 11 && IsNth(d, 4, THURSDAY))
    || (d.month == 12 && d.day == 25)
  }

  /** Kept on the day itself; on the Friday before a Saturday (section 6103(b)); on the Monday after a
      Sunday (Executive Order 11582). */
  ghost predicate IsObserved(d: Date)
    requires IsDate(d)
  {
    || IsStatutory(d)
    || (Weekday(d) == FRIDAY && IsStatutory(NextDay(d)))
    || (Weekday(d) == MONDAY && exists e :: IsDate(e) && NextDay(e) == d && IsStatutory(e))
  }

  /** Within a month the weekday is set by the first of the month. */
  lemma {:induction false} WeekdayInMonth(y: int, m: int, k: int)
    requires 1 <= m <= 12 && 1 <= k <= DaysIn(y, m)
    ensures Weekday(Date(y, m, k)) == (Weekday(Date(y, m, 1)) + (k - 1)) % 7
  {
    AddWeekdays(DayNumber(Date(y, m, 1)), k - 1);
  }

  /** The first day of the month on the weekday, given the weekday of the first of the month. */
  function FirstOn(wd: int, start: int): (first: int)
    requires 0 <= wd < 7 && 0 <= start < 7
    ensures 1 <= first <= 7
  {
    if wd >= start then 1 + wd - start else 8 + wd - start
  }

  /** How many of the days up to the kth are on the weekday. */
  function OnWeekday(wd: int, start: int, k: int): int
    requires 0 <= wd < 7 && 0 <= start < 7
  {
    var first := FirstOn(wd, start);
    if k < first then 0 else (k - first) / 7 + 1
  }

  lemma {:induction false} OneMoreDay(wd: int, start: int, k: int)
    requires 0 <= wd < 7 && 0 <= start < 7 && 1 <= k <= 31
    ensures OnWeekday(wd, start, k) == OnWeekday(wd, start, k - 1) + if (start + (k - 1)) % 7 == wd then 1 else 0
  {
  }

  /** Counting weekdays of a month: they come every seven days. */
  lemma {:induction false} CountBySevens(y: int, m: int, wd: int, k: nat)
    requires 1 <= m <= 12 && k <= DaysIn(y, m) && 0 <= wd < 7
    ensures CountWeekday(y, m, wd, k) == OnWeekday(wd, Weekday(Date(y, m, 1)), k)
  {
    if k > 0 {
      CountBySevens(y, m, wd, k - 1);
      WeekdayInMonth(y, m, k);
      OneMoreDay(wd, Weekday(Date(y, m, 1)), k);
    }
  }

  /** A day on the weekday is the one of its week of the month. */
  lemma {:induction false} WeekOfMonth(wd: int, start: int, k: int)
    requires 0 <= wd < 7 && 0 <= start < 7 && 1 <= k <= 31 && (start + (k - 1)) % 7 == wd
    ensures OnWeekday(wd, start, k) == (k - 1) / 7 + 1
    ensures forall l :: k <= l <= 31 ==> (OnWeekday(wd, start, l) == OnWeekday(wd, start, k) <==> l < k + 7)
  {
    var first := FirstOn(wd, start);
    assert (k - first) % 7 == 0 && k >= first;
  }

  /** The nth such weekday is the one in the nth week of the month. */
  lemma {:induction false} NthByRange(d: Date, n: nat, wd: int)
    requires IsDate(d) && 0 <= wd < 7 && n >= 1
    ensures IsNth(d, n, wd) <==> Weekday(d) == wd && 7 * n - 6 <= d.day <= 7 * n
    ensures IsLast(d, wd) <==> Weekday(d) == wd && d.day + 7 > DaysIn(d.year, d.month)
  {
    var start := Weekday(Date(d.year, d.month, 1));
    CountBySevens(d.year, d.month, wd, d.day);
    CountBySevens(d.year, d.month, wd, DaysIn(d.year, d.month));
    WeekdayInMonth(d.year, d.month, d.day);
    if Weekday(d) == wd {
      WeekOfMonth(wd, start, d.day);
    }
  }

  /** The statute in terms of month, day and weekday. */
  predicate StatuteByRange(m: int, d: int, wd: int) {
    || (m == 1 && d == 1)
    || (m == 1 && wd == MONDAY && 15 <= d <= 21)
    || (m == 2 && wd == MONDAY && 15 <= d <= 21)
    || (m == 5 && wd == MONDAY && 25 <= d)
    || (m == 6 && d == 19)
    || (m == 7 && d == 4)
    || (m == 9 && wd == MONDAY && d <= 7)
    || (m == 10 && wd == MONDAY && 8 <= d <= 14)
    || (m == 11 && d == 11)
    || (m == 11 && wd == THURSDAY && 22 <= d <= 28)
    || (m == 12 && d == 25)
  }

  lemma {:induction false} StatuteRanges(d: Date)
    requires IsDate(d)
    ensures IsStatutory(d) <==> StatuteByRange(d.month, d.day, Weekday(d))
  {
    NthByRange(d, 1, MONDAY);
    NthByRange(d, 2, MONDAY);
    NthByRange(d, 3, MONDAY);
    NthByRange(d, 4, THURSDAY);
  }

  /** On every Monday to Friday of every year, the source's holidays are the observed federal
      holidays. */
  lemma {:induction false} HolidaysAreTheStatute(d: Date)
    requires IsDate(d) && Weekday(d) != SATURDAY && Weekday(d) != SUNDAY
    ensures IsFederalHoliday(d) <==> IsObserved(d)
  {
    ExplicitListAddsNothing(d);
    StatuteRanges(d);
    NextDayNumber(d);
    StatuteRanges(NextDay(d));
    if Weekday(d) == MONDAY {
      SundayBefore(d);
    }
  }

  /** The Monday half: what may be carried over from the day before. */
  lemma {:induction false} SundayBefore(d: Date)
    requires IsDate(d) && Weekday(d) == MONDAY
    ensures (exists e :: IsDate(e) && NextDay(e) == d && IsStatutory(e))
      <==> StatuteByRange(DayBefore(d).month, DayBefore(d).day, SUNDAY)
  {
    var y := DayBefore(d);
    NextDayNumber(y);
    StatuteRanges(y);
    forall e | IsDate(e) && NextDay(e) == d ensures e == y {
      NextDayNumber(e);
      NumbersIdentify(e, y);
    }
  }

  // ---- business days ----

  lemma {:induction false} RulesAreApart(m: int, d: int, wd: int, k: int, e: int)
    requires 1 <= wd <= 4 && ((k == m && e == d + 1) || (k == m % 12 + 1 && e == 1 && d >= 28))
    ensures !(RuleHoliday(m, d, wd) && RuleHoliday(k, e, wd + 1))
  {
  }

  lemma {:induction false} RulesAreApartOverWeekends(m: int, d: int, k: int, e: int)
    requires (k == m && e == d + 3) || (k == m % 12 + 1 && 1 <= e <= 3 && d >= 26 && (m == 12 ==> d + 3 == e + 31))
    ensures !(RuleHoliday(m, d, FRIDAY) && RuleHoliday(k, e, MONDAY))
  {
  }

  /** Two neighbouring weekdays are never both holidays. */
  lemma {:induction false} NeighboursAreApart(d: Date)
    requires IsDate(d) && 1 <= Weekday(d) <= 4
    ensures !(IsFederalHoliday(d) && IsFederalHoliday(NextDay(d)))
  {
    var n := NextDay(d);
    NextDayNumber(d);
    ExplicitListAddsNothing(d);
    ExplicitListAddsNothing(n);
    RulesAreApart(d.month, d.day, Weekday(d), n.month, n.day);
  }

  lemma {:induction false} ThreeDaysOn(d: Date)
    requires IsDate(d)
    ensures var m := NextDay(NextDay(NextDay(d)));
      || (m.month == d.month && m.day == d.day + 3)
      || (&& m.month == d.month % 12 + 1 && 1 <= m.day <= 3 && d.day >= 26
          && (d.month == 12 ==> d.day + 3 == m.day + 31))
  {
  }

  lemma {:induction false} DayAfterFriday(d: Date)
    requires IsDate(d) && Weekday(d) == FRIDAY
    ensures Weekday(NextDay(d)) == SATURDAY
  {
    NextDayNumber(d);
  }

  lemma {:induction false} DayAfterSaturday(d: Date)
    requires IsDate(d) && Weekday(d) == SATURDAY
    ensures Weekday(NextDay(d)) == SUNDAY
  {
    NextDayNumber(d);
  }

  lemma {:induction false} DayAfterSunday(d: Date)
    requires IsDate(d) && Weekday(d) == SUNDAY
    ensures Weekday(NextDay(d)) == MONDAY
  {
    NextDayNumber(d);
  }

  /** A Friday and the Monday after it are never both holidays. */
  lemma {:induction false} WeekendsAreApart(d: Date)
    requires IsDate(d) && Weekday(d) == FRIDAY
    ensures var m := NextDay(NextDay(NextDay(d)));
      Weekday(m) == MONDAY && !(IsFederalHoliday(d) && IsFederalHoliday(m))
  {
    DayAfterFriday(d);
    DayAfterSaturday(NextDay(d));
    DayAfterSunday(NextDay(NextDay(d)));
    var m := NextDay(NextDay(NextDay(d)));
    ExplicitListAddsNothing(d);
    ExplicitListAddsNothing(m);
    ThreeDaysOn(d);
    RulesAreApartOverWeekends(d.month, d.day, m.month, m.day);
  }

  /** Of two neighbouring weekdays one is a business day. */
  lemma {:induction false} WeekdaysHoldABusinessDay(d: Date)
    requires IsDate(d) && 1 <= Weekday(d) <= 4
    ensures IsBusinessDay(d) || IsBusinessDay(NextDay(d))
  {
    NeighboursAreApart(d);
    NextDayNumber(d);
  }

  /** In no year are there four days in a row without a business day. */
  lemma {:induction false} FourDaysHoldABusinessDay(d: Date)
    requires IsDate(d)
    ensures var n := NextDay(d); var k := NextDay(n); var m := NextDay(k);
      IsBusinessDay(d) || IsBusinessDay(n) || IsBusinessDay(k) || IsBusinessDay(m)
  {
    var n := NextDay(d);
    var k := NextDay(n);
    if 1 <= Weekday(d) <= 4 {
      WeekdaysHoldABusinessDay(d);
    } else if Weekday(d) == FRIDAY {
      WeekendsAreApart(d);
    } else if Weekday(d) == SATURDAY {
      DayAfterSaturday(d);
      DayAfterSunday(n);
      WeekdaysHoldABusinessDay(k);
    } else {
      DayAfterSunday(d);
      WeekdaysHoldABusinessDay(n);
    }
  }

  /** Monday to Friday, and no observed federal holiday. */
  ghost predicate IsWorkday(d: Date)
    requires IsDate(d)
  {
    1 <= Weekday(d) <= 5 && !IsObserved(d)
  }

  /** The business days of the source are the days the statute leaves to work. */
  lemma {:induction false} BusinessDaysAreWorkdays(d: Date)
    requires IsDate(d)
    ensures IsBusinessDay(d) <==> IsWorkday(d)
  {
    if Weekday(d) != SATURDAY && Weekday(d) != SUNDAY {
      HolidaysAreTheStatute(d);
    }
  }

  /** b is the first workday after d. */
  ghost predicate IsNextWorkday(d: Date, b: Date) {
    && IsDate(d) && IsDate(b)
    && IsWorkday(b)
    && DayNumber(d) < DayNumber(b)
    && forall e :: IsDate(e) && DayNumber(d) < DayNumber(e) < DayNumber(b) ==> !IsWorkday(e)
  }

  lemma {:induction false} NextIsNextWorkday(d: Date, b: Date)
    requires IsNextBusinessDay(d, b)
    ensures IsNextWorkday(d, b)
  {
    BusinessDaysAreWorkdays(b);
    forall e | IsDate(e) && DayNumber(d) < DayNumber(e) < DayNumber(b) ensures !IsWorkday(e) {
      BusinessDaysAreWorkdays(e);
    }
  }

  /** The first business day after a day. */
  ghost predicate IsNextBusinessDay(d: Date, b: Date) {
    && IsDate(d) && IsDate(b)
    && IsBusinessDay(b)
    && DayNumber(d) < DayNumber(b)
    && forall e :: IsDate(e) && DayNumber(d) < DayNumber(e) < DayNumber(b) ==> !IsBusinessDay(e)
  }

  /** The loop of the source: it ends after at most four days, on the next business day. */
  method NextBusinessDay(d: Date) returns (next: Date)
    requires IsDate(d)
    ensures IsNextBusinessDay(d, next)
    ensures DayNumber(next) <= DayNumber(d) + 4
    ensures next == Following(d)
    ensures IsNextWorkday(d, next)
  {
    next := NextDay(d);
    NextDayNumber(d);
    while !IsBusinessDay(next)
      invariant IsDate(next)
      invariant DayNumber(d) < DayNumber(next) <= DayNumber(d) + 4
      invariant forall e :: IsDate(e) && DayNumber(d) < DayNumber(e) < DayNumber(next) ==> !IsBusinessDay(e)
      decreases DayNumber(d) + 4 - DayNumber(next)
    {
      SkippedDays(d, next);
      forall e | IsDate(e) && DayNumber(e) == DayNumber(next) ensures e == next {
        NumbersIdentify(e, next);
      }
      NextDayNumber(next);
      next := NextDay(next);
    }
    NextIsUnique(d, next, Following(d));
    NextIsNextWorkday(d, next);
  }

  /** Three days after d can be skipped, a fourth cannot. */
  lemma {:induction false} SkippedDays(d: Date, next: Date)
    requires IsDate(d) && IsDate(next) && !IsBusinessDay(next)
    requires DayNumber(d) < DayNumber(next) <= DayNumber(d) + 4
    requires forall e :: IsDate(e) && DayNumber(d) < DayNumber(e) < DayNumber(next) ==> !IsBusinessDay(e)
    ensures DayNumber(next) < DayNumber(d) + 4
  {
    var a := NextDay(d);
    var b := NextDay(a);
    var c := NextDay(b);
    NextDayNumber(d);
    NextDayNumber(a);
    NextDayNumber(b);
    NextDayNumber(c);
    FourDaysHoldABusinessDay(a);
    if DayNumber(next) == DayNumber(d) + 4 {
      NumbersIdentify(next, NextDay(c));
    }
  }

  /** The same day as a function: the first business day of the next four days. */
  function Following(d: Date): (b: Date)
    requires IsDate(d)
    ensures IsNextBusinessDay(d, b)
    ensures DayNumber(b) <= DayNumber(d) + 4
  {
    var n := NextDay(d);
    var k := NextDay(n);
    var m := NextDay(k);
    var b := if IsBusinessDay(n) then n else if IsBusinessDay(k) then k else if IsBusinessDay(m) then m else NextDay(m);
    FirstOfFour(d);
    b
  }

  lemma {:induction false} FirstOfFour(d: Date)
    requires IsDate(d)
    ensures var n := NextDay(d); var k := NextDay(n); var m := NextDay(k);
      var b :=
        if IsBusinessDay(n) then n else if IsBusinessDay(k) then k else if IsBusinessDay(m) then m else NextDay(m);
      IsNextBusinessDay(d, b) && DayNumber(b) <= DayNumber(d) + 4
  {
    var n := NextDay(d);
    var k := NextDay(n);
    var m := NextDay(k);
    NextDayNumber(d);
    NextDayNumber(n);
    NextDayNumber(k);
    NextDayNumber(m);
    FourDaysHoldABusinessDay(n);
    forall e | IsDate(e) && DayNumber(d) < DayNumber(e) < DayNumber(d) + 4 ensures e == n || e == k || e == m {
      if DayNumber(e) == DayNumber(n) { NumbersIdentify(e, n); }
      else if DayNumber(e) == DayNumber(k) { NumbersIdentify(e, k); }
      else { NumbersIdentify(e, m); }
    }
  }

  lemma {:induction false} NextIsUnique(d: Date, a: Date, b: Date)
    requires IsNextBusinessDay(d, a) && IsNextBusinessDay(d, b)
    ensures a == b
  {
    if DayNumber(a) == DayNumber(b) {
      NumbersIdentify(a, b);
    }
  }
}
