/** Day ranges in Myanmar time. An instant is a number of milliseconds since 1970-01-01T00:00Z, a day
    number counts days from 1970-01-01, and Myanmar time is a fixed UTC+6:30. Calendar arithmetic is that
    of section 21.4.1 of ECMA-262. */
module Calendar {

  const MS_PER_DAY := 86_400_000
  const MYANMAR_OFFSET := 23_400_000

  datatype Date = Date(year: int, month: int, day: int)

  // ---- years and months --------------------------------------------------------------------

  predicate Leap(y: int) {
    y % 4 == 0 && (y % 100 != 0 || y % 400 == 0)
  }

  function DaysInYear(y: int): int {
    if Leap(y) then 366 else 365
  }

  /** The day number of 1 January. */
  function DayFromYear(y: int): int {
    365 * (y - 1970) + (y - 1969) / 4 - (y - 1901) / 100 + (y - 1601) / 400
  }

  function DaysInMonth(y: int, m: int): int
    requires 1 <= m <= 12
  {
    if m == 2 then (if Leap(y) then 29 else 28)
    else if m == 4 || m == 6 || m == 9 || m == 11 then 30
    else 31
  }

  /** Days of the year before month `m`; month 13 stands for the year's end. */
  function DaysBefore(y: int, m: int): int
    requires 1 <= m <= 13
  {
    [0, 31, 59, 90, 120, 151, 181, 212, 243, 273, 304, 334, 365][m - 1] + if m > 2 && Leap(y) then 1 else 0
  }

  predicate Valid(d: Date) {
    1 <= d.month <= 12 && 1 <= d.day <= DaysInMonth(d.year, d.month)
  }

  /** The day number of a month and day that may lie outside their usual bounds: they carry over. */
  function MakeDay(year: int, month: int, day: int): int {
    var y, m := year + (month - 1) / 12, (month - 1) % 12 + 1;
    DayFromYear(y) + DaysBefore(y, m) + day - 1
  }

  function DayNumber(d: Date): int {
    MakeDay(d.year, d.month, d.day)
  }

  /** The year of a day number: an estimate from the mean length of a year, off by one at most. */
  function YearOf(n: int): int {
    var y := 1970 + 400 * n / 146_097;
    if DayFromYear(y) > n then y - 1
    else if DayFromYear(y + 1) <= n then y + 1
    else y
  }

  /** The last month that starts on or before day `k` of the year. */
  function MonthFrom(y: int, k: int, m: int): (r: int)
    requires 1 <= m <= 12
    ensures 1 <= r <= m
  {
    if m == 1 || DaysBefore(y, m) <= k then m else MonthFrom(y, k, m - 1)
  }

  function CivilOf(n: int): Date {
    var y := YearOf(n);
    var k := n - DayFromYear(y);
    var m := MonthFrom(y, k, 12);
    Date(y, m, k - DaysBefore(y, m) + 1)
  }

  lemma YearLength(y: int)
    ensures DayFromYear(y + 1) - DayFromYear(y) == DaysInYear(y)
  {
    var a, b, c := y % 4, y % 100, y % 400;
    assert (y - 1968) / 4 == (y - 1969) / 4 + if a == 0 then 1 else 0;
    assert (y - 1900) / 100 == (y - 1901) / 100 + if b == 0 then 1 else 0;
    assert (y - 1600) / 400 == (y - 1601) / 400 + if c == 0 then 1 else 0;
  }

  /** 1 January stays within two days of where the mean of 146097 days in 400 years puts it. */
  lemma YearDrift(y: int)
    ensures -506 <= 400 * DayFromYear(y) - 146_097 * (y - 1970) <= 589
  {
  }

  lemma YearOfIsRight(n: int)
    ensures DayFromYear(YearOf(n)) <= n < DayFromYear(YearOf(n) + 1)
  {
    var y := 1970 + 400 * n / 146_097;
    assert 0 <= 400 * n - 146_097 * (y - 1970) < 146_097;
    YearDrift(y - 1);
    YearDrift(y);
    YearDrift(y + 1);
    YearDrift(y + 2);
  }

  lemma {:induction false} YearsIncrease(y: int, z: int)
    requires y <= z
    ensures DayFromYear(z) - DayFromYear(y) >= 365 * (z - y)
    decreases z - y
  {
    if y < z {
      YearsIncrease(y, z - 1);
      YearLength(z - 1);
    }
  }

  lemma YearIsUnique(n: int, y: int)
    requires DayFromYear(y) <= n < DayFromYear(y + 1)
    ensures YearOf(n) == y
  {
    YearOfIsRight(n);
    if YearOf(n) < y {
      YearsIncrease(YearOf(n) + 1, y);
    } else if y < YearOf(n) {
      YearsIncrease(y + 1, YearOf(n));
    }
  }

  lemma MonthLength(y: int, m: int)
    requires 1 <= m <= 12
    ensures DaysBefore(y, m + 1) - DaysBefore(y, m) == DaysInMonth(y, m)
    ensures DaysBefore(y, 1) == 0 && DaysBefore(y, 13) == DaysInYear(y)
  {
  }

  lemma {:induction false} MonthsIncrease(y: int, m: int, p: int)
    requires 1 <= m <= p <= 13
    ensures DaysBefore(y, m) <= DaysBefore(y, p)
    decreases p - m
  {
    if m < p {
      MonthsIncrease(y, m, p - 1);
      MonthLength(y, p - 1);
    }
  }

  lemma {:induction false} MonthFromIsRight(y: int, k: int, m: int)
    requires 1 <= m <= 12 && 0 <= k < DaysBefore(y, m + 1)
    ensures var r := MonthFrom(y, k, m); DaysBefore(y, r) <= k < DaysBefore(y, r + 1)
    decreases m
  {
    if m > 1 && DaysBefore(y, m) > k {
      MonthFromIsRight(y, k, m - 1);
    }
  }

  lemma MonthIsUnique(y: int, k: int, m: int)
    requires 1 <= m <= 12 && 0 <= DaysBefore(y, m) <= k < DaysBefore(y, m + 1)
    ensures MonthFrom(y, k, 12) == m
  {
    MonthsIncrease(y, m + 1, 13);
    MonthFromIsRight(y, k, 12);
    var r := MonthFrom(y, k, 12);
    if r < m {
      MonthsIncrease(y, r + 1, m);
    } else if m < r {
      MonthsIncrease(y, m + 1, r);
    }
  }

  // ---- day numbers and dates ---------------------------------------------------------------

  /** A valid date's day number splits into its year and the day of the year. */
  lemma DayNumberSplits(y: int, m: int, day: int)
    requires 1 <= m <= 12
    ensures MakeDay(y, m, day) == DayFromYear(y) + DaysBefore(y, m) + day - 1
  {
  }

  lemma DayOfYear(d: Date)
    requires Valid(d)
    ensures var k := DaysBefore(d.year, d.month) + d.day - 1;
            0 <= DaysBefore(d.year, d.month) <= k < DaysBefore(d.year, d.month + 1) <= DaysInYear(d.year)
  {
    MonthLength(d.year, d.month);
    MonthsIncrease(d.year, d.month + 1, 13);
    MonthsIncrease(d.year, 1, d.month);
  }

  lemma YearAndDay(n: int) returns (y: int, k: int)
    ensures y == YearOf(n) && n == DayFromYear(y) + k && 0 <= k < DaysInYear(y)
  {
    y := YearOf(n);
    k := n - DayFromYear(y);
    YearOfIsRight(n);
    YearLength(y);
  }

  lemma CivilSplits(n: int, y: int, k: int, m: int)
    requires YearOf(n) == y && n == DayFromYear(y) + k && 1 <= m <= 12 && MonthFrom(y, k, 12) == m
    ensures CivilOf(n) == Date(y, m, k - DaysBefore(y, m) + 1)
  {
  }

  /** Every day number is that of exactly the date computed for it. */
  lemma DayToDateAndBack(n: int)
    ensures Valid(CivilOf(n)) && DayNumber(CivilOf(n)) == n
  {
    var y, k := YearAndDay(n);
    MonthLength(y, 12);
    MonthFromIsRight(y, k, 12);
    var m := MonthFrom(y, k, 12);
    MonthLength(y, m);
    CivilSplits(n, y, k, m);
    DayNumberSplits(y, m, k - DaysBefore(y, m) + 1);
  }

  lemma SplitIsUnique(y: int, k: int)
    requires 0 <= k < DaysInYear(y)
    ensures YearOf(DayFromYear(y) + k) == y
  {
    YearLength(y);
    YearIsUnique(DayFromYear(y) + k, y);
  }

  lemma CivilOfSplit(d: Date, n: int, k: int)
    requires Valid(d) && k == DaysBefore(d.year, d.month) + d.day - 1 && n == DayFromYear(d.year) + k
    ensures CivilOf(n) == d
  {
    DayOfYear(d);
    SplitIsUnique(d.year, k);
    MonthIsUnique(d.year, k, d.month);
    CivilSplits(n, d.year, k, d.month);
  }

  lemma DayNumberIs(d: Date) returns (k: int)
    requires Valid(d)
    ensures k == DaysBefore(d.year, d.month) + d.day - 1 && DayNumber(d) == DayFromYear(d.year) + k
  {
    DayNumberSplits(d.year, d.month, d.day);
    k := DaysBefore(d.year, d.month) + d.day - 1;
  }

  /** And every valid date comes back from its day number. */
  lemma DateToDayAndBack(d: Date)
    requires Valid(d)
    ensures CivilOf(DayNumber(d)) == d
  {
    var k := DayNumberIs(d);
    CivilOfSplit(d, DayNumber(d), k);
  }

  predicate Earlier(a: Date, b: Date) {
    a.year < b.year || (a.year == b.year && (a.month < b.month || (a.month == b.month && a.day < b.day)))
  }

  lemma EarlierYearComesFirst(y: int, z: int, k: int)
    requires y < z && k < DaysInYear(y)
    ensures DayFromYear(y) + k < DayFromYear(z)
  {
    YearLength(y);
    YearsIncrease(y + 1, z);
  }

  lemma EarlierComesFirst(a: Date, b: Date)
    requires Valid(a) && Valid(b) && Earlier(a, b)
    ensures DayNumber(a) < DayNumber(b)
  {
    DayNumberSplits(a.year, a.month, a.day);
    DayNumberSplits(b.year, b.month, b.day);
    DayOfYear(a);
    DayOfYear(b);
    if a.year < b.year {
      EarlierYearComesFirst(a.year, b.year, DaysBefore(a.year, a.month) + a.day - 1);
    } else if a.month < b.month {
      MonthsIncrease(a.year, a.month + 1, b.month);
    }
  }

  /** Day numbers are ordered as the dates are, year before month before day. */
  lemma DayNumbersAreChronological(a: Date, b: Date)
    requires Valid(a) && Valid(b)
    ensures DayNumber(a) < DayNumber(b) <==> Earlier(a, b)
  {
    if Earlier(a, b) {
      EarlierComesFirst(a, b);
    } else if Earlier(b, a) {
      EarlierComesFirst(b, a);
    }
  }

  // ---- text --------------------------------------------------------------------------------

  predicate IsDigit(c: char) {
    '0' <= c <= '9'
  }

  function Digit(c: char): int {
    c as int - '0' as int
  }

  function Two(n: int): string
    requires 0 <= n < 100
  {
    ['0' + (n / 10) as char, '0' + (n % 10) as char]
  }

  /** `YYYY-MM-DD`. */
  function DateText(d: Date): string
    requires 0 <= d.year <= 9999 && 0 <= d.month < 100 && 0 <= d.day < 100
  {
    Two(d.year / 100) + Two(d.year % 100) + "-" + Two(d.month) + "-" + Two(d.day)
  }

  predicate IsDateText(s: string) {
    |s| == 10 && s[4] == s[7] == '-' &&
    IsDigit(s[0]) && IsDigit(s[1]) && IsDigit(s[2]) && IsDigit(s[3]) &&
    IsDigit(s[5]) && IsDigit(s[6]) && IsDigit(s[8]) && IsDigit(s[9])
  }

  /** The fields of a bare date, which need not be a date of the calendar. */
  function Fields(s: string): Date
    requires IsDateText(s)
  {
    Date(1000 * Digit(s[0]) + 100 * Digit(s[1]) + 10 * Digit(s[2]) + Digit(s[3]),
         10 * Digit(s[5]) + Digit(s[6]), 10 * Digit(s[8]) + Digit(s[9]))
  }

  predicate EndsWithOffset(s: string) {
    var n := |s|;
    n >= 6 && (s[n - 6] == '+' || s[n - 6] == '-') && IsDigit(s[n - 5]) && IsDigit(s[n - 4]) && s[n - 3] == ':'
    && IsDigit(s[n - 2]) && IsDigit(s[n - 1])
  }

  predicate HasTimezoneInfo(s: string) {
    'T' in s || (s != "" && s[|s| - 1] == 'Z') || EndsWithOffset(s)
  }

  lemma TwoOfDigits(c: char, e: char)
    requires IsDigit(c) && IsDigit(e)
    ensures Two(10 * Digit(c) + Digit(e)) == [c, e]
  {
  }

  /** A written date is read back. */
  lemma TextRoundTrip(d: Date)
    requires 0 <= d.year <= 9999 && 0 <= d.month < 100 && 0 <= d.day < 100
    ensures IsDateText(DateText(d)) && Fields(DateText(d)) == d
  {
  }

  /** What is read is what was written, and is never taken for an instant. */
  lemma FieldsRoundTrip(s: string)
    requires IsDateText(s)
    ensures var d := Fields(s); 0 <= d.year <= 9999 && 0 <= d.month < 100 && 0 <= d.day < 100 && DateText(d) == s
    ensures !HasTimezoneInfo(s)
  {
    var d := Fields(s);
    var century, year := 10 * Digit(s[0]) + Digit(s[1]), 10 * Digit(s[2]) + Digit(s[3]);
    assert d.year == 100 * century + year && d.year / 100 == century && d.year % 100 == year;
    TwoOfDigits(s[0], s[1]);
    TwoOfDigits(s[2], s[3]);
    TwoOfDigits(s[5], s[6]);
    TwoOfDigits(s[8], s[9]);
    assert s == [s[0], s[1]] + [s[2], s[3]] + "-" + [s[5], s[6]] + "-" + [s[8], s[9]];
  }

  // ---- ranges ------------------------------------------------------------------------------

  /** `Date.UTC` reads the years 0 to 99 as 1900 to 1999. */
  function FullYear(y: int): int {
    if 0 <= y <= 99 then 1900 + y else y
  }

  function LocalDay(s: string): int
    requires IsDateText(s)
  {
    var d := Fields(s);
    MakeDay(FullYear(d.year), d.month, d.day)
  }

  function DayStart(n: int): int {
    n * MS_PER_DAY - MYANMAR_OFFSET
  }

  /** `instant` is what the date library makes of a text with timezone information. */
  function ParseRangeStart(s: string, instant: int): int
    requires HasTimezoneInfo(s) || IsDateText(s)
  {
    if HasTimezoneInfo(s) then instant else DayStart(LocalDay(s))
  }

  function ParseRangeEnd(s: string, instant: int): int
    requires HasTimezoneInfo(s) || IsDateText(s)
  {
    if HasTimezoneInfo(s) then instant
    else DayStart(LocalDay(s)) + 23 * 3_600_000 + 59 * 60_000 + 59 * 1000 + 999
  }

  function MyanmarDay(t: int): int {
    (t + MYANMAR_OFFSET) / MS_PER_DAY
  }

  /** The calendar date in Myanmar at an instant. */
  function MyanmarDate(t: int): Date {
    CivilOf(MyanmarDay(t))
  }

  /** Local time without its time of day. */
  function StartOfDayMyanmar(t: int): int {
    t - (t + MYANMAR_OFFSET) % MS_PER_DAY
  }

  function EndOfDayMyanmar(t: int): int {
    StartOfDayMyanmar(t) + MS_PER_DAY - 1
  }

  function DayRangeMyanmar(t: int): (int, int) {
    (StartOfDayMyanmar(t), EndOfDayMyanmar(t))
  }

  /** `isSame(now, 'day')` asks whether `now` lies between the start and the end of the date's day. */
  predicate IsTodayMyanmar(t: int, now: int) {
    StartOfDayMyanmar(t) <= now <= EndOfDayMyanmar(t)
  }

  /** The date a bare text stands for once out-of-bounds fields have carried over. */
  function DateMeant(s: string): Date
    requires IsDateText(s)
  {
    CivilOf(LocalDay(s))
  }

  /** A calendar date from the year 100 on means itself. */
  lemma RealDatesMeanThemselves(s: string)
    requires IsDateText(s) && Valid(Fields(s)) && Fields(s).year >= 100
    ensures DateMeant(s) == Fields(s)
  {
    DateToDayAndBack(Fields(s));
  }

  lemma StartIsDayStart(t: int, n: int)
    ensures StartOfDayMyanmar(t) == DayStart(MyanmarDay(t))
    ensures DayStart(n) == StartOfDayMyanmar(t) <==> n == MyanmarDay(t)
    ensures DayStart(n) <= t < DayStart(n + 1) <==> n == MyanmarDay(t)
  {
  }

  /** Two day numbers are equal exactly when their dates are. */
  lemma SameDaySameDate(m: int, n: int)
    ensures m == n <==> CivilOf(m) == CivilOf(n)
  {
    DayToDateAndBack(m);
    DayToDateAndBack(n);
  }

  /** The range of a bare date holds exactly the instants at which it is that date in Myanmar. */
  lemma RangeHoldsExactly(s: string, t: int, instant: int)
    requires IsDateText(s)
    ensures ParseRangeStart(s, instant) <= t <= ParseRangeEnd(s, instant) <==> MyanmarDate(t) == DateMeant(s)
  {
    FieldsRoundTrip(s);
    StartIsDayStart(t, LocalDay(s));
    SameDaySameDate(LocalDay(s), MyanmarDay(t));
  }

  /** A bare date's range is the day range of any instant inside it, and conversely. */
  lemma RangeIsDayRange(s: string, t: int, instant: int)
    requires IsDateText(s)
    ensures DayRangeMyanmar(t) == (ParseRangeStart(s, instant), ParseRangeEnd(s, instant)) <==>
              MyanmarDate(t) == DateMeant(s)
  {
    FieldsRoundTrip(s);
    StartIsDayStart(t, LocalDay(s));
    SameDaySameDate(LocalDay(s), MyanmarDay(t));
  }

  /** Consecutive days leave no gap and no overlap, so the ranges tile the time line: every instant lies
      in the range of one day number and no other. */
  lemma RangesTile(t: int, n: int)
    ensures EndOfDayMyanmar(DayStart(n)) + 1 == StartOfDayMyanmar(DayStart(n + 1)) == DayStart(n + 1)
    ensures StartOfDayMyanmar(t) <= t <= EndOfDayMyanmar(t)
    ensures DayStart(n) <= t < DayStart(n + 1) <==> n == MyanmarDay(t)
  {
  }

  /** "Today" is decided by the two calendar dates alone, and so is symmetric. */
  lemma TodayIffSameDate(t: int, now: int)
    ensures IsTodayMyanmar(t, now) <==> MyanmarDate(t) == MyanmarDate(now)
    ensures IsTodayMyanmar(t, now) <==> IsTodayMyanmar(now, t)
  {
    StartIsDayStart(t, MyanmarDay(now));
    StartIsDayStart(now, MyanmarDay(t));
    SameDaySameDate(MyanmarDay(t), MyanmarDay(now));
  }

  /** Filtering by a span of dates selects exactly the instants whose Myanmar date is in the span. */
  lemma SpanHoldsExactly(from: string, to: string, t: int, instant: int)
    requires IsDateText(from) && IsDateText(to)
    ensures ParseRangeStart(from, instant) <= t <= ParseRangeEnd(to, instant) <==>
              !Earlier(MyanmarDate(t), DateMeant(from)) && !Earlier(DateMeant(to), MyanmarDate(t))
  {
    FieldsRoundTrip(from);
    FieldsRoundTrip(to);
    var n := MyanmarDay(t);
    RangesTile(t, n);
    DayToDateAndBack(n);
    DayToDateAndBack(LocalDay(from));
    DayToDateAndBack(LocalDay(to));
    DayNumbersAreChronological(MyanmarDate(t), DateMeant(from));
    DayNumbersAreChronological(DateMeant(to), MyanmarDate(t));
    assert DayStart(LocalDay(from)) <= t <==> LocalDay(from) <= n;
    assert t < DayStart(LocalDay(to) + 1) <==> n <= LocalDay(to);
  }

  // ---- known dates and instants ------------------------------------------------------------

  /** The Gregorian calendar: its months and leap years. */
  lemma MonthsAndLeapYears(y: int, m: int)
    requires 1 <= m <= 12
    ensures DaysInMonth(y, m) == [31, if Leap(y) then 29 else 28, 31, 30, 31, 30, 31, 31, 30, 31, 30, 31][m - 1]
    ensures Leap(2024) && Leap(2000) && !Leap(1900) && !Leap(2100) && !Leap(2023)
    ensures Leap(y) <==> Leap(y + 400)
    ensures Leap(y) ==> y % 4 == 0
    ensures !Leap(y) && y % 4 == 0 ==> y % 100 == 0
  {
  }

  lemma KnownYears()
    ensures DayFromYear(1970) == 0 && DayFromYear(1900) == -25_567 && DayFromYear(2000) == 10_957
    ensures DayFromYear(2024) == 19_723 && DayFromYear(2025) == 20_089 && DayFromYear(2100) == 47_482
  {
  }

  lemma DayInYear(d: Date, start: int, before: int)
    requires 1 <= d.month <= 12 && DayFromYear(d.year) == start && DaysBefore(d.year, d.month) == before
    ensures DayNumber(d) == start + before + d.day - 1
  {
    DayNumberSplits(d.year, d.month, d.day);
  }

  /** Day numbers count from 1 January 1970. */
  lemma KnownDays()
    ensures DayNumber(Date(1970, 1, 1)) == 0 && DayNumber(Date(2000, 2, 29)) == 11_016
    ensures DayNumber(Date(1900, 2, 28)) == -25_509 && DayNumber(Date(1900, 3, 1)) == -25_508
    ensures DayNumber(Date(2024, 12, 31)) == 20_088 && DayNumber(Date(2100, 3, 1)) == 47_541
  {
    KnownYears();
    DayInYear(Date(1970, 1, 1), 0, 0);
    DayInYear(Date(2000, 2, 29), 10_957, 31);
    DayInYear(Date(1900, 2, 28), -25_567, 31);
    DayInYear(Date(1900, 3, 1), -25_567, 59);
    DayInYear(Date(2024, 12, 31), 19_723, 335);
    DayInYear(Date(2100, 3, 1), 47_482, 59);
  }

  /** A day in Myanmar starts at 17:30 UTC: the start of an instant's day is the last 17:30 UTC at or before it, and the
      end the millisecond before the next. */
  lemma DaysStartAtHalfPastFive(t: int)
    ensures (StartOfDayMyanmar(t) - 63_000_000) % 86_400_000 == 0
    ensures StartOfDayMyanmar(t) <= t < StartOfDayMyanmar(t) + 86_400_000
    ensures EndOfDayMyanmar(t) == StartOfDayMyanmar(t) + 86_399_999
  {
  }

  lemma KnownTexts()
    ensures DateText(Date(2025, 9, 1)) == "2025-09-01" && DateText(Date(2024, 2, 30)) == "2024-02-30"
    ensures DateText(Date(2024, 13, 1)) == "2024-13-01" && DateText(Date(99, 1, 1)) == "0099-01-01"
  {
  }

  lemma TextMeans(d: Date, actual: Date)
    requires 0 <= d.year <= 9999 && 0 <= d.month < 100 && 0 <= d.day < 100 && Valid(actual)
    requires MakeDay(FullYear(d.year), d.month, d.day) == DayNumber(actual)
    ensures IsDateText(DateText(d)) && LocalDay(DateText(d)) == DayNumber(actual) && DateMeant(DateText(d)) == actual
    ensures !HasTimezoneInfo(DateText(d))
  {
    TextRoundTrip(d);
    FieldsRoundTrip(DateText(d));
    DateToDayAndBack(actual);
  }

  /** 1 September 2025 in Myanmar lasts from 2025-08-31T17:30:00.000Z to 2025-09-01T17:29:59.999Z. */
  lemma KnownRange(instant: int)
    ensures var s := DateText(Date(2025, 9, 1));
            && IsDateText(s) && ParseRangeStart(s, instant) == 1_756_661_400_000
            && ParseRangeEnd(s, instant) == 1_756_747_799_999
  {
    KnownYears();
    DayInYear(Date(2025, 9, 1), 20_089, 243);
    TextMeans(Date(2025, 9, 1), Date(2025, 9, 1));
  }

  lemma DayIs(n: int, d: Date)
    requires Valid(d) && DayNumber(d) == n
    ensures CivilOf(n) == d
  {
    DateToDayAndBack(d);
  }

  /** The two milliseconds around that start are of different dates. */
  lemma KnownMidnight()
    ensures MyanmarDate(1_756_661_400_000) == Date(2025, 9, 1) && MyanmarDate(1_756_661_399_999) == Date(2025, 8, 31)
  {
    assert MyanmarDay(1_756_661_400_000) == 20_332 && MyanmarDay(1_756_661_399_999) == 20_331;
    KnownYears();
    DayInYear(Date(2025, 9, 1), 20_089, 243);
    DayInYear(Date(2025, 8, 31), 20_089, 212);
    DayIs(20_332, Date(2025, 9, 1));
    DayIs(20_331, Date(2025, 8, 31));
  }

  /** Fields that are out of bounds carry over, and years of two digits are of the last century. */
  lemma CarriedDates()
    ensures var s := DateText(Date(2024, 2, 30)); IsDateText(s) && DateMeant(s) == Date(2024, 3, 1)
    ensures var s := DateText(Date(2024, 13, 1)); IsDateText(s) && DateMeant(s) == Date(2025, 1, 1)
    ensures var s := DateText(Date(99, 1, 1)); IsDateText(s) && DateMeant(s) == Date(1999, 1, 1)
  {
    CarriedDays();
    TextMeans(Date(2024, 2, 30), Date(2024, 3, 1));
    TextMeans(Date(2024, 13, 1), Date(2025, 1, 1));
    TextMeans(Date(99, 1, 1), Date(1999, 1, 1));
  }

  lemma CarriedDays()
    ensures MakeDay(2024, 2, 30) == DayNumber(Date(2024, 3, 1))
    ensures MakeDay(2024, 13, 1) == DayNumber(Date(2025, 1, 1))
  {
    KnownYears();
    DayNumberSplits(2024, 2, 30);
    DayInYear(Date(2024, 3, 1), 19_723, 60);
    DayInYear(Date(2025, 1, 1), 20_089, 0);
  }

  /** What marks an instant: a time, a closing Z, or an offset. */
  lemma TextsWithTimezone()
    ensures HasTimezoneInfo("2025-09-01T10:00:00") && HasTimezoneInfo("2025-09-01Z")
    ensures HasTimezoneInfo("2025-09-01+06:30") && HasTimezoneInfo("2025-09-01-05:00")
    ensures !HasTimezoneInfo("2025-09-01") && !HasTimezoneInfo("2025-09-01 10:00")
  {
  }

  /** A text with timezone information is taken as the instant that it names, at both ends. */
  lemma InstantsAreTaken(s: string, instant: int)
    requires HasTimezoneInfo(s)
    ensures ParseRangeStart(s, instant) == instant && ParseRangeEnd(s, instant) == instant
  {
  }
}
