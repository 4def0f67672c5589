/** The proleptic Gregorian calendar behind Python's `datetime`.
    Day 0 is Monday 0001-01-01, the first day `datetime` can represent. */
module Calendar {

  datatype Date = Date(year: nat, month: nat, day: nat) {
    predicate Valid() {
      1 <= year && 1 <= month <= 12 && 1 <= day <= MonthLength(year, month)
    }
  }

  predicate IsLeap(year: nat) {
    year % 4 == 0 && (year % 100 != 0 || year % 400 == 0)
  }

  function YearLength(year: nat): nat {
    if IsLeap(year) then 366 else 365
  }

  function MonthLength(year: nat, month: nat): nat
    requires 1 <= month <= 12
  {
    if month == 2 then (if IsLeap(year) then 29 else 28)
    else if month in {4, 6, 9, 11} then 30
    else 31
  }

  // Days from 0001-01-01 to January 1st of `year`.
  function DaysBeforeYear(year: nat): nat
    requires 1 <= year
  {
    if year == 1 then 0 else DaysBeforeYear(year - 1) + YearLength(year - 1)
  }

  // Days from January 1st to the first of `month`; month 13 stands for the whole year.
  function DaysBeforeMonth(year: nat, month: nat): nat
    requires 1 <= month <= 13
  {
    if month == 1 then 0 else DaysBeforeMonth(year, month - 1) + MonthLength(year, month - 1)
  }

  function DayNumber(date: Date): nat
    requires date.Valid()
  {
    DaysBeforeYear(date.year) + DaysBeforeMonth(date.year, date.month) + date.day - 1
  }

  function YearFrom(day: nat, year: nat): (y: nat)
    requires 1 <= year && DaysBeforeYear(year) <= day
    ensures 1 <= y && DaysBeforeYear(y) <= day < DaysBeforeYear(y + 1)
    decreases day - DaysBeforeYear(year)
  {
    if day < DaysBeforeYear(year + 1) then year else YearFrom(day, year + 1)
  }

  function MonthFrom(year: nat, dayOfYear: nat, month: nat): (m: nat)
    requires 1 <= month <= 12
    requires DaysBeforeMonth(year, month) <= dayOfYear < DaysBeforeMonth(year, 13)
    ensures month <= m <= 12
    ensures DaysBeforeMonth(year, m) <= dayOfYear < DaysBeforeMonth(year, m + 1)
    decreases 12 - month
  {
    if dayOfYear < DaysBeforeMonth(year, month + 1) then month else MonthFrom(year, dayOfYear, month + 1)
  }

  // The date of a day number; the inverse of `DayNumber`.
  function DateOf(day: nat): (date: Date)
    ensures date.Valid() && DayNumber(date) == day
  {
    var year := YearFrom(day, 1);
    var dayOfYear := day - DaysBeforeYear(year);
    MonthsFillYear(year);
    var month := MonthFrom(year, dayOfYear, 1);
    Date(year, month, dayOfYear - DaysBeforeMonth(year, month) + 1)
  }

  // Python's `weekday()`: Monday is 0.
  function Weekday(day: nat): nat { day % 7 }

  lemma MonthTable(year: nat)
    ensures forall m {:trigger DaysBeforeMonth(year, m)} | 1 <= m <= 13 ::
              DaysBeforeMonth(year, m) ==
              [0, 31, 59, 90, 120, 151, 181, 212, 243, 273, 304, 334, 365][m - 1]
              + (if m > 2 && IsLeap(year) then 1 else 0)
  {
    assert DaysBeforeMonth(year, 3) == DaysBeforeMonth(year, 2) + MonthLength(year, 2);
    assert DaysBeforeMonth(year, 5) == DaysBeforeMonth(year, 4) + 30 == DaysBeforeMonth(year, 3) + 61;
    assert DaysBeforeMonth(year, 7) == DaysBeforeMonth(year, 6) + 30 == DaysBeforeMonth(year, 5) + 61;
    assert DaysBeforeMonth(year, 9) == DaysBeforeMonth(year, 8) + 31 == DaysBeforeMonth(year, 7) + 62;
    assert DaysBeforeMonth(year, 11) == DaysBeforeMonth(year, 10) + 31 == DaysBeforeMonth(year, 9) + 61;
    assert DaysBeforeMonth(year, 13) == DaysBeforeMonth(year, 12) + 31 == DaysBeforeMonth(year, 11) + 61;
  }

  lemma MonthsFillYear(year: nat)
    ensures DaysBeforeMonth(year, 13) == YearLength(year)
  {
    MonthTable(year);
  }

  lemma {:induction false} YearsIncrease(a: nat, b: nat)
    requires 1 <= a < b
    ensures DaysBeforeYear(a) + YearLength(a) <= DaysBeforeYear(b)
    decreases b
  {
    if a < b - 1 { YearsIncrease(a, b - 1); }
  }

  lemma {:induction false} MonthsIncrease(year: nat, a: nat, b: nat)
    requires 1 <= a < b <= 13
    ensures DaysBeforeMonth(year, a) + MonthLength(year, a) <= DaysBeforeMonth(year, b)
    decreases b
  {
    if a < b - 1 { MonthsIncrease(year, a, b - 1); }
  }

  /** A valid date lies inside its own year. */
  lemma DateInYear(date: Date)
    requires date.Valid()
    ensures DaysBeforeYear(date.year) <= DayNumber(date) < DaysBeforeYear(date.year + 1)
  {
    MonthsFillYear(date.year);
    MonthsIncrease(date.year, date.month, 13);
  }

  lemma EarlierYear(a: Date, b: Date)
    requires a.Valid() && b.Valid() && a.year < b.year
    ensures DayNumber(a) < DayNumber(b)
  {
    DateInYear(a);
    DateInYear(b);
    YearsIncrease(a.year, b.year);
  }

  lemma EarlierMonth(a: Date, b: Date)
    requires a.Valid() && b.Valid() && a.year == b.year && a.month < b.month
    ensures DayNumber(a) < DayNumber(b)
  {
    MonthsIncrease(a.year, a.month, b.month);
  }

  /** `DateOf` inverts `DayNumber`: no two valid dates share a day number. */
  lemma DateOfDayNumber(date: Date)
    requires date.Valid()
    ensures DateOf(DayNumber(date)) == date
  {
    var other := DateOf(DayNumber(date));
    if date.year < other.year {
      EarlierYear(date, other);
    } else if other.year < date.year {
      EarlierYear(other, date);
    } else if date.month < other.month {
      EarlierMonth(date, other);
    } else if other.month < date.month {
      EarlierMonth(other, date);
    }
  }

  /** The closed form of the year offset: 365 days a year plus the leap days. */
  lemma {:induction false} DaysBeforeYearClosed(year: nat)
    requires 1 <= year
    ensures DaysBeforeYear(year) == 365 * (year - 1) + (year - 1) / 4 - (year - 1) / 100 + (year - 1) / 400
  {
    if year > 1 {
      DaysBeforeYearClosed(year - 1);
      LeapDayCount(year - 1);
    }
  }

  lemma LeapDayCount(year: nat)
    requires 1 <= year
    ensures year / 4 - year / 100 + year / 400 ==
            (year - 1) / 4 - (year - 1) / 100 + (year - 1) / 400 + (if IsLeap(year) then 1 else 0)
  {
    MultiplesOf100And400(year);
    QuotientBy4(year);
    QuotientBy100(year);
    QuotientBy400(year);
  }

  lemma MultipleOf100(q: nat)
    ensures (100 * q) % 4 == 0
  {
  }

  lemma MultipleOf400(q: nat)
    ensures (400 * q) % 100 == 0
  {
  }

  lemma MultiplesOf100And400(year: nat)
    ensures year % 100 == 0 ==> year % 4 == 0
    ensures year % 400 == 0 ==> year % 100 == 0
  {
    if year % 100 == 0 { MultipleOf100(year / 100); }
    if year % 400 == 0 { MultipleOf400(year / 400); }
  }

  lemma QuotientBy4(n: nat)
    requires 1 <= n
    ensures n / 4 == (n - 1) / 4 + (if n % 4 == 0 then 1 else 0)
  {
  }

  lemma QuotientBy100(n: nat)
    requires 1 <= n
    ensures n / 100 == (n - 1) / 100 + (if n % 100 == 0 then 1 else 0)
  {
  }

  lemma QuotientBy400(n: nat)
    requires 1 <= n
    ensures n / 400 == (n - 1) / 400 + (if n % 400 == 0 then 1 else 0)
  {
  }

  // A month and day that occur in every year: everything but February 29th.
  predicate YearlyDate(month: nat, day: nat) {
    1 <= month <= 12 && 1 <= day <= MonthLength(1, month)
  }

  predicate FallsOn(day: nat, month: nat, dayOfMonth: nat) {
    DateOf(day).month == month && DateOf(day).day == dayOfMonth
  }

  predicate IsDate(date: Date, year: nat, month: nat, day: nat) {
    date.Valid() && date.year == year && date.month == month && date.day == day
  }

  // A yearly date comes round within 366 days.
  lemma Anniversary(year: nat, month: nat, dayOfMonth: nat) returns (here: Date, next: Date)
    requires 1 <= year && YearlyDate(month, dayOfMonth)
    ensures IsDate(here, year, month, dayOfMonth) && IsDate(next, year + 1, month, dayOfMonth)
    ensures DayNumber(here) < DayNumber(next) <= DayNumber(here) + 366
  {
    here, next := Date(year, month, dayOfMonth), Date(year + 1, month, dayOfMonth);
    MonthTable(year);
    MonthTable(year + 1);
    ConsecutiveLeaps(year);
  }

  lemma ConsecutiveLeaps(year: nat)
    requires 1 <= year
    ensures !(IsLeap(year) && IsLeap(year + 1))
    ensures DaysBeforeYear(year + 1) == DaysBeforeYear(year) + YearLength(year)
  {
  }

  lemma FallsOnItsDay(date: Date)
    requires date.Valid()
    ensures FallsOn(DayNumber(date), date.month, date.day)
  {
    DateOfDayNumber(date);
  }

  lemma YearOf(day: nat) returns (year: nat)
    ensures 1 <= year && DaysBeforeYear(year) <= day < DaysBeforeYear(year + 1) <= DaysBeforeYear(year) + 366
  {
    year := DateOf(day).year;
    DateInYear(DateOf(day));
  }

  // The day of a date lies in its year, and reads back as that month and day.
  lemma DayOfDate(date: Date, year: nat, month: nat, dayOfMonth: nat)
    requires IsDate(date, year, month, dayOfMonth)
    ensures FallsOn(DayNumber(date), month, dayOfMonth)
    ensures DaysBeforeYear(year) <= DayNumber(date) < DaysBeforeYear(year + 1)
  {
    DateInYear(date);
    FallsOnItsDay(date);
  }

  // The two occurrences of a yearly date in a year and the next.
  lemma TwoOccurrences(year: nat, month: nat, dayOfMonth: nat) returns (a: nat, b: nat)
    requires 1 <= year && YearlyDate(month, dayOfMonth)
    ensures FallsOn(a, month, dayOfMonth) && FallsOn(b, month, dayOfMonth)
    ensures DaysBeforeYear(year) <= a < DaysBeforeYear(year + 1) <= b <= a + 366
  {
    var here, next := Anniversary(year, month, dayOfMonth);
    a, b := DayNumber(here), DayNumber(next);
    DayOfDate(here, year, month, dayOfMonth);
    DayOfDate(next, year + 1, month, dayOfMonth);
  }

  /** Every 366 consecutive days contain every yearly date. */
  lemma YearlyDateRecurs(start: nat, month: nat, dayOfMonth: nat) returns (day: nat)
    requires YearlyDate(month, dayOfMonth)
    ensures start <= day < start + 366 && FallsOn(day, month, dayOfMonth)
  {
    var year := YearOf(start);
    var here, next := TwoOccurrences(year, month, dayOfMonth);
    day := if start <= here then here else next;
  }

  // ----- Days of the week -----

  function MonthCode(month: nat): nat
    requires 1 <= month <= 12
  {
    [0, 3, 2, 5, 0, 3, 5, 1, 4, 6, 2, 4][month - 1]
  }

  // The day of the week, Sunday being 0, by the closed formula that counts years from March.
  function DayOfWeek(d: Date): nat
    requires d.Valid()
  {
    var y := if d.month <= 2 then d.year - 1 else d.year;
    (y + y / 4 - y / 100 + y / 400 + MonthCode(d.month) + d.day) % 7
  }

  // The formula's months are whole weeks from the days before them.
  lemma MonthOffset(year: nat, month: nat) returns (weeks: nat)
    requires 1 <= month <= 12
    ensures DaysBeforeMonth(year, month) ==
            7 * weeks + MonthCode(month)
            + (if month <= 2 then 0 else if IsLeap(year) then 2 else 1)
  {
    MonthTable(year);
    weeks := [0, 4, 8, 12, 17, 21, 25, 30, 34, 38, 43, 47][month - 1];
  }

  lemma YearOffset(year: nat, month: nat) returns (x: int)
    requires 1 <= year && 1 <= month <= 12
    ensures var y := if month <= 2 then year - 1 else year; x == y + y / 4 - y / 100 + y / 400
    ensures DaysBeforeYear(year) + (if month <= 2 then 0 else if IsLeap(year) then 2 else 1)
            == 364 * (year - 1) + x
  {
    var y := if month <= 2 then year - 1 else year;
    x := y + y / 4 - y / 100 + y / 400;
    DaysBeforeYearClosed(year);
    LeapDayCount(year);
  }

  lemma WholeWeeks(q: int, x: int)
    ensures (7 * q + x) % 7 == x % 7
  {
  }

  lemma NextWeekday(n: nat)
    ensures (n % 7 + 1) % 7 == (n + 1) % 7
  {
  }

  /** Day numbers and weekdays agree with the calendar: one more than Monday's 0 is what the closed
      formula says, for every date. */
  lemma WeekdayClosed(d: Date)
    requires d.Valid()
    ensures (Weekday(DayNumber(d)) + 1) % 7 == DayOfWeek(d)
  {
    var q, x := DayInWeeks(d);
    WeekdayAfter(DayNumber(d), q, x);
  }

  lemma WeekdayAfter(n: nat, q: int, x: int)
    requires n + 1 == 7 * q + x
    ensures (Weekday(n) + 1) % 7 == x % 7
  {
    NextWeekday(n);
    WholeWeeks(q, x);
  }

  lemma DayInWeeks(d: Date) returns (q: int, x: int)
    requires d.Valid()
    ensures DayNumber(d) + 1 == 7 * q + x && x % 7 == DayOfWeek(d)
  {
    var weeks := MonthOffset(d.year, d.month);
    var years := YearOffset(d.year, d.month);
    q, x := 52 * (d.year - 1) + weeks, years + MonthCode(d.month) + d.day;
    DayParts(d, weeks, years);
  }

  // Days of the years, of the months, and of the month itself.
  lemma DayParts(d: Date, weeks: int, years: int)
    requires d.Valid()
    requires var extra := if d.month <= 2 then 0 else if IsLeap(d.year) then 2 else 1;
             && DaysBeforeMonth(d.year, d.month) == 7 * weeks + MonthCode(d.month) + extra
             && DaysBeforeYear(d.year) + extra == 364 * (d.year - 1) + years
    ensures DayNumber(d) + 1 == 7 * (52 * (d.year - 1) + weeks) + years + MonthCode(d.month) + d.day
  {
  }
}
