/**
 * The calendar fields the generator derives from each date.
 *
 * Dates follow the proleptic Gregorian calendar of Python's `datetime`: the
 * day number (`Ordinal`, 0001-01-01 is day 1) uses the same year and month
 * tables, `weekday()` counts Monday as 0, and `isocalendar()` is modelled by
 * its own algorithm (the Monday of week 1) and then proved equal to the
 * Thursday rule of the ISO 8601 week date (section 4.1.4 of ISO 8601:2004).
 */
module Calendar {
  import Digits

  datatype Date = Date(year: int, month: int, day: int)

  /** A date as `isocalendar()` returns it: ISO year, week 1..53, weekday 1..7. */
  datatype IsoDate = IsoDate(year: int, week: int, weekday: int)

  predicate IsLeapYear(y: int)
  {
    y % 4 == 0 && (y % 100 != 0 || y % 400 == 0)
  }

  function DaysInYear(y: int): int
  {
    if IsLeapYear(y) then 366 else 365
  }

  /** Month lengths of a common year, January first. */
  const MonthLengths: seq<int> := [31, 28, 31, 30, 31, 30, 31, 31, 30, 31, 30, 31]

  /** Days in the months before each month of a common year. */
  const DaysBeforeMonthTable: seq<int> := [0, 31, 59, 90, 120, 151, 181, 212, 243, 273, 304, 334]

  function DaysInMonth(y: int, m: int): (n: int)
    requires 1 <= m <= 12
    ensures 28 <= n <= 31
    ensures n == 29 <==> m == 2 && IsLeapYear(y)
  {
    if m == 2 && IsLeapYear(y) then 29 else MonthLengths[m - 1]
  }

  function DaysBeforeMonth(y: int, m: int): (n: int)
    requires 1 <= m <= 12
    ensures 0 <= n && n + DaysInMonth(y, m) <= DaysInYear(y)
  {
    DaysBeforeMonthTable[m - 1] + (if m > 2 && IsLeapYear(y) then 1 else 0)
  }

  predicate ValidDate(d: Date)
  {
    d.year >= 1 && 1 <= d.month <= 12 && 1 <= d.day <= DaysInMonth(d.year, d.month)
  }

  /** Days in all years before `y`, by the Gregorian leap-year rule. */
  function DaysBeforeYear(y: int): int
  {
    var p := y - 1;
    p * 365 + p / 4 - p / 100 + p / 400
  }

  /** The day number of January 1 of `y`. */
  function YearStart(y: int): int
  {
    DaysBeforeYear(y) + 1
  }

  /** `date.toordinal()`: 0001-01-01 is day 1. */
  function Ordinal(d: Date): (n: int)
    requires ValidDate(d)
    ensures YearStart(d.year) <= n < YearStart(d.year + 1)
    ensures n >= 1
  {
    YearLength(d.year);
    YearStartFromOne(d.year);
    DaysBeforeYear(d.year) + DaysBeforeMonth(d.year, d.month) + d.day
  }

  /** `date.weekday()`: Monday is 0 and Sunday is 6. */
  function Weekday(d: Date): (w: int)
    requires ValidDate(d)
    ensures 0 <= w < 7
  {
    WeekdayOfDay(Ordinal(d))
  }

  /** The weekday of day number `t`, Monday 0: day 1 (0001-01-01) was a Monday. */
  function WeekdayOfDay(t: int): int
  {
    (t + 6) % 7
  }

  /** `date + timedelta(days=1)`. */
  function NextDay(d: Date): (n: Date)
    requires ValidDate(d)
    ensures ValidDate(n)
    ensures Ordinal(n) == Ordinal(d) + 1
  {
    YearLength(d.year);
    if d.day < DaysInMonth(d.year, d.month) then Date(d.year, d.month, d.day + 1)
    else if d.month < 12 then MonthStep(d.year, d.month); Date(d.year, d.month + 1, 1)
    else Date(d.year + 1, 1, 1)
  }

  /** `(month - 1) // 3 + 1`. */
  function Quarter(month: int): (q: int)
    requires 1 <= month <= 12
    ensures 1 <= q <= 4
    ensures 3 * q - 2 <= month <= 3 * q
  {
    (month - 1) / 3 + 1
  }

  /** The Monday that opens ISO week 1 of a year whose January 1 is day `firstDay`. */
  function Week1Monday(firstDay: int): int
  {
    var firstWeekday := (firstDay + 6) % 7;
    var monday := firstDay - firstWeekday;
    if firstWeekday > 3 then monday + 7 else monday
  }

  /** Python's `_isoweek1monday(y)`. */
  function IsoWeek1Monday(y: int): int
  {
    Week1Monday(YearStart(y))
  }

  /**
   * The body of `isocalendar()` for day `today` of year `y`, given the week-1
   * Mondays of the years `y - 1`, `y` and `y + 1`.
   */
  function IsoWeekDate(today: int, y: int, prevMonday: int, monday: int, nextMonday: int): IsoDate
  {
    var week := (today - monday) / 7;
    var day := (today - monday) % 7;
    if week < 0 then
      IsoDate(y - 1, (today - prevMonday) / 7 + 1, (today - prevMonday) % 7 + 1)
    else if week >= 52 && today >= nextMonday then
      IsoDate(y + 1, 1, day + 1)
    else
      IsoDate(y, week + 1, day + 1)
  }

  /** `date.isocalendar()`. */
  function IsoCalendar(d: Date): IsoDate
    requires ValidDate(d)
  {
    IsoOfDay(Ordinal(d), d.year)
  }

  /** `isocalendar()` for day number `t` of year `y`. */
  function IsoOfDay(t: int, y: int): IsoDate
  {
    IsoWeekDate(t, y, IsoWeek1Monday(y - 1), IsoWeek1Monday(y), IsoWeek1Monday(y + 1))
  }

  /** `isocalendar()[1]`. */
  function WeekOfYear(d: Date): int
    requires ValidDate(d)
  {
    IsoCalendar(d).week
  }

  /** The day number of the Thursday in the Monday-to-Sunday week of `d`. */
  function ThursdayOf(d: Date): int
    requires ValidDate(d)
  {
    ThursdayOfDay(Ordinal(d))
  }

  /** The day number of the Thursday in the Monday-to-Sunday week of day `t`. */
  function ThursdayOfDay(t: int): int
  {
    t - WeekdayOfDay(t) + 3
  }

  /** `date.strftime('%Y-%m-%d')`. */
  function FormatDate(d: Date): string
    requires ValidDate(d)
  {
    YearText(d) + "-" + MonthText(d) + "-" + DayText(d)
  }

  /** `%Y`: the year, zero-padded to four digits. */
  function YearText(d: Date): string
    requires ValidDate(d)
  {
    Digits.ZFill(Digits.Decimal(d.year), 4)
  }

  /** `%m`: the month, zero-padded to two digits. */
  function MonthText(d: Date): string
    requires ValidDate(d)
  {
    Digits.ZFill(Digits.Decimal(d.month), 2)
  }

  /** `%d`: the day, zero-padded to two digits. */
  function DayText(d: Date): string
    requires ValidDate(d)
  {
    Digits.ZFill(Digits.Decimal(d.day), 2)
  }

  /** The literal holiday list, as the text the generator compares against. */
  const HolidayTexts: seq<string> := [
    "2022-01-01", "2022-07-04", "2022-11-24", "2022-12-25",
    "2023-01-01", "2023-07-04", "2023-11-23", "2023-12-25"
  ]

  /** The same holidays as dates. */
  const HolidayDates: seq<Date> := [
    Date(2022, 1, 1), Date(2022, 7, 4), Date(2022, 11, 24), Date(2022, 12, 25),
    Date(2023, 1, 1), Date(2023, 7, 4), Date(2023, 11, 23), Date(2023, 12, 25)
  ]

  predicate IsHoliday(d: Date)
    requires ValidDate(d)
  {
    FormatDate(d) in HolidayTexts
  }

  /** Lexicographic order on (year, month, day). */
  predicate Before(a: Date, b: Date)
  {
    a.year < b.year
    || (a.year == b.year && a.month < b.month)
    || (a.year == b.year && a.month == b.month && a.day < b.day)
  }

  /** `date + timedelta(days=k)`: `k` steps of `NextDay`. */
  function AddDays(d: Date, k: nat): (r: Date)
    requires ValidDate(d)
    ensures ValidDate(r) && Ordinal(r) == Ordinal(d) + k
  {
    if k == 0 then d else NextDay(AddDays(d, k - 1))
  }

  /** `pandas.date_range(start, end, freq='D')`: every day from `start` to `end`, both included. */
  function DateRange(start: Date, end: Date): (r: seq<Date>)
    requires ValidDate(start) && ValidDate(end)
    ensures |r| == if Ordinal(end) < Ordinal(start) then 0 else Ordinal(end) - Ordinal(start) + 1
    ensures forall k :: 0 <= k < |r| ==> ValidDate(r[k]) && Ordinal(r[k]) == Ordinal(start) + k
  {
    var n := if Ordinal(end) < Ordinal(start) then 0 else Ordinal(end) - Ordinal(start) + 1;
    seq(n, k requires 0 <= k => AddDays(start, k))
  }

  /** The calendar columns of a sales record. */
  datatype DayFields = DayFields(
    dayOfWeek: int,
    month: int,
    quarter: int,
    year: int,
    weekOfYear: int,
    isWeekend: bool)

  /** The calendar columns for `d`: weekday, month, quarter, year, ISO week and weekend flag. */
  function FieldsOf(d: Date): (c: DayFields)
    requires ValidDate(d)
    ensures c.dayOfWeek == Weekday(d) && c.month == d.month && c.year == d.year
    ensures 1 <= c.quarter <= 4 && 3 * c.quarter - 2 <= c.month <= 3 * c.quarter
    ensures c.weekOfYear == WeekOfYear(d) && 1 <= c.weekOfYear <= 53
    ensures c.isWeekend <==> c.dayOfWeek == 5 || c.dayOfWeek == 6
  {
    IsoCalendarThursdayRule(d);
    var dow := Weekday(d);
    DayFields(dow, d.month, Quarter(d.month), d.year, WeekOfYear(d), dow >= 5)
  }

  const FirstDay := Date(2022, 1, 1)
  const LastDay := Date(2023, 12, 31)

  // ---------------------------------------------------------------------
  // Arithmetic behind the day numbers

  /** Quotient and remainder by seven are determined by any decomposition. */
  lemma DivMod7(n: int, q: int, r: int)
    requires 0 <= r < 7 && n == 7 * q + r
    ensures n / 7 == q && n % 7 == r
  {
  }

  /** Consecutive Januaries are a year's length apart. */
  lemma YearLength(y: int)
    ensures YearStart(y + 1) == YearStart(y) + DaysInYear(y)
  {
    var p := y - 1;
    CountStep(y);
    assert DaysBeforeYear(y + 1) == y * 365 + y / 4 - y / 100 + y / 400;
    assert DaysBeforeYear(y) == p * 365 + p / 4 - p / 100 + p / 400;
  }

  /** Going from year `y - 1` to `y` adds one to each count of multiples that `y` is a multiple of. */
  lemma CountStep(y: int)
    ensures y / 4 == (y - 1) / 4 + (if y % 4 == 0 then 1 else 0)
    ensures y / 100 == (y - 1) / 100 + (if y % 100 == 0 then 1 else 0)
    ensures y / 400 == (y - 1) / 400 + (if y % 400 == 0 then 1 else 0)
    ensures (if y % 4 == 0 then 1 else 0) - (if y % 100 == 0 then 1 else 0) + (if y % 400 == 0 then 1 else 0)
      == DaysInYear(y) - 365
  {
    DivStep4(y);
    DivStep100(y);
    DivStep400(y);
    Multiples(y);
  }

  /** A multiple of 400 is a multiple of 100, and a multiple of 100 a multiple of 4. */
  lemma Multiples(y: int)
    ensures y % 400 == 0 ==> y % 100 == 0
    ensures y % 100 == 0 ==> y % 4 == 0
  {
    var q, a, b := y / 400, y / 100, y % 100;
    assert y == 400 * q + y % 400 && y == 100 * a + b;
    if y % 400 == 0 {
      assert b == 100 * (4 * q - a);
    }
    var c, e := y / 4, y % 4;
    assert y == 4 * c + e;
    if b == 0 {
      assert e == 4 * (25 * a - c);
    }
  }

  lemma DivStep4(y: int)
    ensures y / 4 == (y - 1) / 4 + (if y % 4 == 0 then 1 else 0)
  {
  }

  lemma DivStep100(y: int)
    ensures y / 100 == (y - 1) / 100 + (if y % 100 == 0 then 1 else 0)
  {
  }

  lemma DivStep400(y: int)
    ensures y / 400 == (y - 1) / 400 + (if y % 400 == 0 then 1 else 0)
  {
  }

  lemma YearSpan(y: int)
    ensures 365 <= YearStart(y + 1) - YearStart(y) <= 366
  {
    YearLength(y);
  }

  lemma YearStartFromOne(y: int)
    requires y >= 1
    ensures YearStart(y) >= 1
  {
    var p := y - 1;
    assert p / 4 >= p / 100;
  }

  lemma MonthStep(y: int, m: int)
    requires 1 <= m < 12
    ensures DaysBeforeMonth(y, m + 1) == DaysBeforeMonth(y, m) + DaysInMonth(y, m)
  {
  }

  lemma {:induction false} YearStartMonotone(y1: int, y2: int)
    requires y1 < y2
    ensures YearStart(y1 + 1) <= YearStart(y2)
    decreases y2 - y1
  {
    if y1 + 1 < y2 {
      YearLength(y2 - 1);
      YearStartMonotone(y1, y2 - 1);
    }
  }

  lemma {:induction false} DaysBeforeMonthMonotone(y: int, m1: int, m2: int)
    requires 1 <= m1 < m2 <= 12
    ensures DaysBeforeMonth(y, m1) + DaysInMonth(y, m1) <= DaysBeforeMonth(y, m2)
    decreases m2 - m1
  {
    MonthStep(y, m2 - 1);
    if m1 + 1 < m2 {
      DaysBeforeMonthMonotone(y, m1, m2 - 1);
    }
  }

  // ---------------------------------------------------------------------
  // Day numbers, order and succession

  /** Day numbers order valid dates exactly as (year, month, day) does. */
  lemma OrdinalOrder(a: Date, b: Date)
    requires ValidDate(a) && ValidDate(b)
    ensures Before(a, b) <==> Ordinal(a) < Ordinal(b)
    ensures a == b <==> Ordinal(a) == Ordinal(b)
  {
    if Before(a, b) {
      BeforeOrdinal(a, b);
    } else if Before(b, a) {
      BeforeOrdinal(b, a);
    } else {
      assert a == b;
    }
  }

  lemma BeforeOrdinal(a: Date, b: Date)
    requires ValidDate(a) && ValidDate(b) && Before(a, b)
    ensures Ordinal(a) < Ordinal(b)
  {
    if a.year < b.year {
      YearStartMonotone(a.year, b.year);
    } else if a.month < b.month {
      DaysBeforeMonthMonotone(a.year, a.month, b.month);
    }
  }

  /** The day after `d` comes one weekday later, Sunday wrapping to Monday. */
  lemma WeekdayNextDay(d: Date)
    requires ValidDate(d)
    ensures Weekday(NextDay(d)) == (Weekday(d) + 1) % 7
    ensures Before(d, NextDay(d))
  {
    WeekdayStep(Ordinal(d));
  }

  lemma WeekdayStep(o: int)
    ensures (o + 1 + 6) % 7 == ((o + 6) % 7 + 1) % 7
  {
  }

  /** A later month never has an earlier quarter. */
  lemma QuarterMonotone(m1: int, m2: int)
    requires 1 <= m1 <= m2 <= 12
    ensures Quarter(m1) <= Quarter(m2)
  {
  }

  // ---------------------------------------------------------------------
  // ISO 8601 week numbers

  lemma Week1MondayFacts(firstDay: int)
    ensures (Week1Monday(firstDay) + 6) % 7 == 0
    ensures firstDay <= Week1Monday(firstDay) + 3 <= firstDay + 6
  {
  }

  /** Counting whole weeks from the Monday of week 1 is counting them from the year's first day to this week's Thursday. */
  lemma WeekCount(t: int, firstDay: int)
    ensures (t - Week1Monday(firstDay)) % 7 == (t + 6) % 7
    ensures (t - Week1Monday(firstDay)) / 7 == (t - (t + 6) % 7 + 3 - firstDay) / 7
  {
    var w := Week1Monday(firstDay);
    Week1MondayFacts(firstDay);
    var q, r := (t - w) / 7, (t - w) % 7;
    DivMod7(t + 6, q + (w + 6) / 7, r);
    DivMod7(t - (t + 6) % 7 + 3 - firstDay, q, w + 3 - firstDay);
  }

  /** The Thursday rule for the body of `isocalendar()`, over day numbers alone. */
  lemma IsoWeekDateThursdayRule(t: int, y: int, s0: int, s1: int, s2: int, s3: int)
    requires 365 <= s1 - s0 <= 366 && 365 <= s2 - s1 <= 366 && 365 <= s3 - s2 <= 366
    requires s1 <= t < s2
    ensures var r := IsoWeekDate(t, y, Week1Monday(s0), Week1Monday(s1), Week1Monday(s2));
      var th := t - (t + 6) % 7 + 3;
      && r.weekday == WeekdayOfDay(t) + 1
      && (r.year == y - 1 ==> s0 <= th < s1 && r.week == (th - s0) / 7 + 1)
      && (r.year == y ==> s1 <= th < s2 && r.week == (th - s1) / 7 + 1)
      && (r.year == y + 1 ==> s2 <= th < s3 && r.week == (th - s2) / 7 + 1)
      && (r.year == y - 1 || r.year == y || r.year == y + 1)
      && 1 <= r.week <= 53
  {
    WeekCount(t, s0);
    WeekCount(t, s1);
    WeekCount(t, s2);
    Week1MondayFacts(s2);
  }

  /**
   * `isocalendar()` obeys the ISO 8601 rule: the week of `d` belongs to the
   * year that holds its Thursday, and is numbered by how many whole weeks that
   * Thursday lies after the first Thursday of that year, counting from 1.
   */
  lemma IsoCalendarThursdayRule(d: Date)
    requires ValidDate(d)
    ensures YearStart(IsoCalendar(d).year) <= ThursdayOf(d) < YearStart(IsoCalendar(d).year + 1)
    ensures IsoCalendar(d).week == (ThursdayOf(d) - YearStart(IsoCalendar(d).year)) / 7 + 1
    ensures 1 <= IsoCalendar(d).week <= 53
    ensures IsoCalendar(d).weekday == Weekday(d) + 1
  {
    IsoThursdayYear(d);
    IsoThursdayWeek(d);
    IsoWeekdayField(d);
  }

  lemma IsoThursdayYear(d: Date)
    requires ValidDate(d)
    ensures YearStart(IsoCalendar(d).year) <= ThursdayOf(d) < YearStart(IsoCalendar(d).year + 1)
  {
    IsoYearRule(Ordinal(d), d.year);
  }

  lemma IsoThursdayWeek(d: Date)
    requires ValidDate(d)
    ensures IsoCalendar(d).week == (ThursdayOf(d) - YearStart(IsoCalendar(d).year)) / 7 + 1
    ensures 1 <= IsoCalendar(d).week <= 53
  {
    IsoYearRule(Ordinal(d), d.year);
  }

  lemma IsoWeekdayField(d: Date)
    requires ValidDate(d)
    ensures IsoCalendar(d).weekday == Weekday(d) + 1
  {
    IsoYearRule(Ordinal(d), d.year);
  }

  /** The Thursday rule for day `t` of year `y`, with the year starts of the calendar filled in. */
  lemma IsoYearRule(t: int, y: int)
    requires YearStart(y) <= t < YearStart(y + 1)
    ensures var r := IsoOfDay(t, y);
      var th := ThursdayOfDay(t);
      && YearStart(r.year) <= th < YearStart(r.year + 1)
      && r.week == (th - YearStart(r.year)) / 7 + 1
      && 1 <= r.week <= 53
      && r.weekday == WeekdayOfDay(t) + 1
  {
    var s0, s1, s2, s3 := YearStart(y - 1), YearStart(y), YearStart(y + 1), YearStart(y + 2);
    YearSpan(y - 1);
    YearSpan(y);
    YearSpan(y + 1);
    IsoWeekDateThursdayRule(t, y, s0, s1, s2, s3);
    var r := IsoWeekDate(t, y, Week1Monday(s0), Week1Monday(s1), Week1Monday(s2));
    assert IsoOfDay(t, y) == r;
    assert ThursdayOfDay(t) == t - (t + 6) % 7 + 3 && WeekdayOfDay(t) == (t + 6) % 7;
    if r.year == y - 1 {
      assert YearStart(r.year) == s0 && YearStart(r.year + 1) == s1;
    } else if r.year == y {
      assert YearStart(r.year) == s1 && YearStart(r.year + 1) == s2;
    } else {
      assert YearStart(r.year) == s2 && YearStart(r.year + 1) == s3;
    }
  }

  // ---------------------------------------------------------------------
  // Holiday text

  /** Different dates print differently: `FormatDate` loses nothing. */
  lemma FormatDateInjective(a: Date, b: Date)
    requires ValidDate(a) && ValidDate(b)
    requires FormatDate(a) == FormatDate(b)
    ensures a == b
  {
    var s := FormatDate(a);
    FieldTexts(a);
    FieldTexts(b);
    SplitDateText(YearText(a), MonthText(a), DayText(a));
    SplitDateText(YearText(b), MonthText(b), DayText(b));
    assert YearText(a) == s[..|s| - 6] == YearText(b);
    assert MonthText(a) == s[|s| - 5..|s| - 3] == MonthText(b);
    assert DayText(a) == s[|s| - 2..] == DayText(b);
  }

  /** The month and day fields are two digits wide, and each field reads back as its number. */
  lemma FieldTexts(d: Date)
    requires ValidDate(d)
    ensures |MonthText(d)| == 2 && |DayText(d)| == 2
    ensures Digits.IsDigits(YearText(d)) && Digits.ValueOf(YearText(d)) == d.year
    ensures Digits.IsDigits(MonthText(d)) && Digits.ValueOf(MonthText(d)) == d.month
    ensures Digits.IsDigits(DayText(d)) && Digits.ValueOf(DayText(d)) == d.day
  {
    assert Digits.Pow10(2) == 100;
    Digits.ZFillWidth(d.month, 2);
    Digits.ZFillWidth(d.day, 2);
    Digits.ZFillDecimalValue(d.year, 4);
    Digits.ZFillDecimalValue(d.month, 2);
    Digits.ZFillDecimalValue(d.day, 2);
  }

  lemma SplitDateText(y: string, m: string, dd: string)
    requires |m| == 2 && |dd| == 2
    ensures var s := y + "-" + m + "-" + dd;
      && |s| == |y| + 6
      && s[..|s| - 6] == y && s[|s| - 5..|s| - 3] == m && s[|s| - 2..] == dd
  {
    var s := y + "-" + m + "-" + dd;
    assert s[..|s| - 6] == y;
    assert s[|s| - 5..|s| - 3] == m;
    assert s[|s| - 2..] == dd;
  }

  // Each holiday date prints as its listed text; one lemma per date keeps
  // the literal evaluation of each small.

  lemma NewYearText2022()
    ensures FormatDate(Date(2022, 1, 1)) == "2022-01-01"
  {
    assert Digits.Decimal(2022) == "2022";
    assert Digits.Decimal(1) == "1";
  }

  lemma IndependenceDayText2022()
    ensures FormatDate(Date(2022, 7, 4)) == "2022-07-04"
  {
    assert Digits.Decimal(2022) == "2022";
    assert Digits.Decimal(7) == "7";
    assert Digits.Decimal(4) == "4";
  }

  lemma ThanksgivingText2022()
    ensures FormatDate(Date(2022, 11, 24)) == "2022-11-24"
  {
    assert Digits.Decimal(2022) == "2022";
    assert Digits.Decimal(11) == "11";
    assert Digits.Decimal(24) == "24";
  }

  lemma ChristmasText2022()
    ensures FormatDate(Date(2022, 12, 25)) == "2022-12-25"
  {
    assert Digits.Decimal(2022) == "2022";
    assert Digits.Decimal(12) == "12";
    assert Digits.Decimal(25) == "25";
  }

  lemma NewYearText2023()
    ensures FormatDate(Date(2023, 1, 1)) == "2023-01-01"
  {
    assert Digits.Decimal(2023) == "2023";
    assert Digits.Decimal(1) == "1";
  }

  lemma IndependenceDayText2023()
    ensures FormatDate(Date(2023, 7, 4)) == "2023-07-04"
  {
    assert Digits.Decimal(2023) == "2023";
    assert Digits.Decimal(7) == "7";
    assert Digits.Decimal(4) == "4";
  }

  lemma ThanksgivingText2023()
    ensures FormatDate(Date(2023, 11, 23)) == "2023-11-23"
  {
    assert Digits.Decimal(2023) == "2023";
    assert Digits.Decimal(11) == "11";
    assert Digits.Decimal(23) == "23";
  }

  lemma ChristmasText2023()
    ensures FormatDate(Date(2023, 12, 25)) == "2023-12-25"
  {
    assert Digits.Decimal(2023) == "2023";
    assert Digits.Decimal(12) == "12";
    assert Digits.Decimal(25) == "25";
  }

  /** Each listed text is how the matching listed date prints. */
  lemma HolidayText(i: int)
    requires 0 <= i < |HolidayDates|
    ensures ValidDate(HolidayDates[i]) && FormatDate(HolidayDates[i]) == HolidayTexts[i]
  {
    if i == 0 {
      NewYearText2022();
    } else if i == 1 {
      IndependenceDayText2022();
    } else if i == 2 {
      ThanksgivingText2022();
    } else if i == 3 {
      ChristmasText2022();
    } else if i == 4 {
      NewYearText2023();
    } else if i == 5 {
      IndependenceDayText2023();
    } else if i == 6 {
      ThanksgivingText2023();
    } else {
      ChristmasText2023();
    }
  }

  /** Matching the printed date against the text list is matching the date against the holidays. */
  lemma IsHolidayByDate(d: Date)
    requires ValidDate(d)
    ensures IsHoliday(d) <==> d in HolidayDates
  {
    if IsHoliday(d) {
      var i :| 0 <= i < |HolidayTexts| && HolidayTexts[i] == FormatDate(d);
      HolidayText(i);
      FormatDateInjective(d, HolidayDates[i]);
    } else if d in HolidayDates {
      var i :| 0 <= i < |HolidayDates| && HolidayDates[i] == d;
      HolidayText(i);
    }
  }

  // ---------------------------------------------------------------------
  // The date range

  /** The range starts at `start`, ends at `end`, and holds every date between. */
  lemma DateRangeCovers(start: Date, end: Date, d: Date)
    requires ValidDate(start) && ValidDate(end) && ValidDate(d)
    requires Ordinal(start) <= Ordinal(d) <= Ordinal(end)
    ensures var r := DateRange(start, end);
      && r[0] == start && r[|r| - 1] == end
      && 0 <= Ordinal(d) - Ordinal(start) < |r| && r[Ordinal(d) - Ordinal(start)] == d
  {
    var r := DateRange(start, end);
    OrdinalOrder(r[0], start);
    OrdinalOrder(r[|r| - 1], end);
    OrdinalOrder(r[Ordinal(d) - Ordinal(start)], d);
  }

  /** Dates later in the range are later in the calendar, so none repeats. */
  lemma DateRangeIncreasing(start: Date, end: Date, i: int, j: int)
    requires ValidDate(start) && ValidDate(end)
    requires 0 <= i < j < |DateRange(start, end)|
    ensures Before(DateRange(start, end)[i], DateRange(start, end)[j])
  {
    var r := DateRange(start, end);
    OrdinalOrder(r[i], r[j]);
  }

  /** 2022-01-01 to 2023-12-31 inclusive is 730 days. */
  lemma StudyPeriodLength()
    ensures ValidDate(FirstDay) && ValidDate(LastDay)
    ensures |DateRange(FirstDay, LastDay)| == 730
  {
    assert Ordinal(FirstDay) == 738156;
    assert Ordinal(LastDay) == 738885;
  }

  /** 2022-01-01 is a Saturday, in ISO week 52 of 2021, in the first quarter, and a listed holiday. */
  lemma NewYear2022()
    ensures ValidDate(FirstDay)
    ensures Weekday(FirstDay) == 5
    ensures IsoCalendar(FirstDay) == IsoDate(2021, 52, 6)
    ensures WeekOfYear(FirstDay) == 52
    ensures Quarter(FirstDay.month) == 1
    ensures IsHoliday(FirstDay)
  {
    assert Ordinal(FirstDay) == 738156;
    assert IsoWeek1Monday(2022) == 738158;
    assert IsoWeek1Monday(2021) == 737794;
    HolidayText(0);
  }
}
