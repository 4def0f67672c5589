/** Which days a cron expression names: the code's rule, which wants the date and the weekday, and the
    rule of the crontab utility (IEEE Std 1003.1-2017, INPUT FILES), which may want either. */
module DayRules {
  import opened Calendar
  import opened NextRun

  predicate DateMatches(months: set<int>, doms: set<int>, day: nat) {
    DateOf(day).month in months && DateOf(day).day in doms
  }

  predicate CodeRule(months: set<int>, doms: set<int>, dows: set<int>, day: nat) {
    DateMatches(months, doms, day) && SundayFirst(day) in dows
  }

  // The fields written as an asterisk.
  datatype Open = Open(month: bool, dom: bool, dow: bool)

  predicate CrontabRule(open: Open, months: set<int>, doms: set<int>, dows: set<int>, day: nat) {
    if open.dow then DateMatches(months, doms, day)
    else if open.month && open.dom then SundayFirst(day) in dows
    else DateMatches(months, doms, day) || SundayFirst(day) in dows
  }

  // An asterisk stands for every value of its field.
  predicate OpenFieldsAreFull(open: Open, months: set<int>, doms: set<int>, dows: set<int>) {
    && (open.month ==> forall m | 1 <= m <= 12 :: m in months)
    && (open.dom ==> forall k | 1 <= k <= 31 :: k in doms)
    && (open.dow ==> forall w | 0 <= w <= 6 :: w in dows)
  }

  // The slots the search accepts are those whose hour is named and whose day the code's rule names.
  lemma SlotsFollowCodeRule(c: Cron, h: nat)
    ensures SlotMatches(c, h) <==> h % 24 in c.hours && CodeRule(c.months, c.doms, c.dows, h / 24)
  {
  }

  // ----- Every date falls on every weekday -----

  // A month and day that occur in leap years.
  predicate IsDay(month: nat, k: nat) {
    1 <= month <= 12 && 1 <= k <= MonthLength(4, month)
  }

  lemma DateIsDay(day: nat)
    ensures IsDay(DateOf(day).month, DateOf(day).day)
  {
  }

  lemma CommonYear(year: nat)
    requires 1 <= year && year % 4 != 0
    ensures DaysBeforeYear(year + 1) == DaysBeforeYear(year) + 365
  {
  }

  lemma LeapBefore100(year: nat)
    requires 4 <= year < 100 && year % 4 == 0
    ensures IsLeap(year) && DaysBeforeYear(year + 1) == DaysBeforeYear(year) + 366
  {
    assert year % 100 == year;
  }

  lemma AfterMultipleOf4(year: nat)
    requires year % 4 == 0
    ensures (year + 1) % 4 == 1 && (year + 2) % 4 == 2 && (year + 3) % 4 == 3 && (year + 4) % 4 == 0
  {
  }

  lemma FourYears(year: nat)
    requires 4 <= year < 92 && year % 4 == 0
    ensures IsLeap(year) && IsLeap(year + 4) && DaysBeforeYear(year + 4) == DaysBeforeYear(year) + 1461
  {
    AfterMultipleOf4(year);
    LeapBefore100(year);
    LeapBefore100(year + 4);
    CommonYear(year + 1);
    CommonYear(year + 2);
    CommonYear(year + 3);
  }

  // The same date four years on.
  lemma FourYearsOn(year: nat, month: nat, k: nat)
    requires 4 <= year < 92 && year % 4 == 0 && IsDay(month, k)
    ensures Date(year, month, k).Valid() && Date(year + 4, month, k).Valid()
    ensures DayNumber(Date(year + 4, month, k)) == DayNumber(Date(year, month, k)) + 1461
  {
    FourYears(year);
    MonthTable(year);
    MonthTable(year + 4);
  }

  // A leap year with seven more after it.
  predicate Starts(year: nat) { 4 <= year <= 64 && year % 4 == 0 }

  lemma LeapYearAfter(year: nat, j: nat)
    requires Starts(year) && j <= 7
    ensures 4 <= year + 4 * j < 96 && (year + 4 * j) % 4 == 0
  {
  }

  lemma {:induction false} LeapYearsOn(year: nat, j: nat, month: nat, k: nat)
    requires Starts(year) && j <= 7 && IsDay(month, k)
    ensures Date(year + 4 * j, month, k).Valid() && Date(year, month, k).Valid()
    ensures DayNumber(Date(year + 4 * j, month, k)) == DayNumber(Date(year, month, k)) + Shift(j)
    decreases j
  {
    if j == 0 {
      FourYearsOn(year, month, k);
    } else {
      LeapYearsOn(year, j - 1, month, k);
      LeapYearAfter(year, j - 1);
      FourYearsOn(year + 4 * (j - 1), month, k);
    }
  }

  function Shift(j: nat): nat { 1461 * j }

  // Leap years move a date by five weekdays, so seven of them meet them all.
  lemma SomeLeapYear(a: nat, w: nat) returns (j: nat)
    requires w < 7
    ensures j < 7 && SundayFirst(a + Shift(j)) == w
  {
    var r := a % 7;
    j := 3 * (w + 6 - r) % 7;
    ShiftedWeekday(r, w);
    assert (a + 1461 * j) % 7 == (r + 5 * j) % 7 by { WholeWeeks(a / 7 + 208 * j, r + 5 * j); }
  }

  // Three is the inverse of five modulo seven.
  lemma ShiftedWeekday(r: nat, w: nat)
    requires r < 7 && w < 7
    ensures var j := 3 * (w + 6 - r) % 7; ((r + 5 * j) % 7 + 1) % 7 == w
  {
    var x := w + 6 - r;
    var q, j := 3 * x / 7, 3 * x % 7;
    FifteenTimes(r, w, x, q, j);
    WholeWeeks(2 * x - 5 * q, w + 6);
    SixBack(w);
  }

  lemma FifteenTimes(r: int, w: int, x: int, q: int, j: int)
    requires x == w + 6 - r && 3 * x == 7 * q + j
    ensures r + 5 * j == 7 * (2 * x - 5 * q) + (w + 6)
  {
  }

  lemma SixBack(w: nat)
    requires w < 7
    ensures ((w + 6) % 7 + 1) % 7 == w
  {
  }

  // Eight days four years apart that all carry the date.
  lemma LeapDays(year: nat, month: nat, k: nat) returns (first: nat)
    requires Starts(year) && IsDay(month, k)
    ensures forall j: nat | j <= 7 :: FallsOn(first + Shift(j), month, k)
  {
    LeapYearsOn(year, 0, month, k);
    first := DayNumber(Date(year, month, k));
    forall j: nat | j <= 7
      ensures FallsOn(first + Shift(j), month, k)
    {
      LeapYearsOn(year, j, month, k);
      FallsOnItsDay(Date(year + 4 * j, month, k));
    }
  }

  lemma EveryWeekday(month: nat, k: nat, w: nat) returns (day: nat)
    requires IsDay(month, k) && w < 7
    ensures FallsOn(day, month, k) && SundayFirst(day) == w
  {
    var first := LeapDays(4, month, k);
    var j := SomeLeapYear(first, w);
    day := first + Shift(j);
    assert FallsOn(first + Shift(j), month, k);
  }

  // ----- When the two rules agree -----

  predicate HasDate(months: set<int>, doms: set<int>, month: nat, k: nat) { month in months && k in doms }

  ghost predicate EveryDate(months: set<int>, doms: set<int>) {
    forall month, k | IsDay(month, k) :: HasDate(months, doms, month, k)
  }

  ghost predicate NoDate(months: set<int>, doms: set<int>) {
    forall month, k | IsDay(month, k) :: !HasDate(months, doms, month, k)
  }

  ghost predicate RulesAgree(open: Open, months: set<int>, doms: set<int>, dows: set<int>) {
    forall day: nat :: CodeRule(months, doms, dows, day) <==> CrontabRule(open, months, doms, dows, day)
  }

  // A named date falls on every weekday, a named weekday on every date.
  lemma AgreementSpreads(open: Open, months: set<int>, doms: set<int>, dows: set<int>, month: nat, k: nat, w: nat)
    requires RulesAgree(open, months, doms, dows) && !open.dow && !(open.month && open.dom)
    requires IsDay(month, k) && w < 7
    ensures HasDate(months, doms, month, k) <==> w in dows
  {
    var day := EveryWeekday(month, k, w);
    assert CodeRule(months, doms, dows, day) <==> CrontabRule(open, months, doms, dows, day);
  }

  /** The two rules name the same days if and only if the weekday is an asterisk, month and day of month
      both are, or the fields between them name every day, or none. */
  lemma RulesAgreeExactly(open: Open, months: set<int>, doms: set<int>, dows: set<int>)
    requires OpenFieldsAreFull(open, months, doms, dows)
    ensures RulesAgree(open, months, doms, dows)
            <==> || open.dow || (open.month && open.dom)
                 || (EveryDate(months, doms) && forall w | 0 <= w <= 6 :: w in dows)
                 || (NoDate(months, doms) && forall w | 0 <= w <= 6 :: w !in dows)
  {
    forall day: nat
      ensures DateMatches(months, doms, day) == HasDate(months, doms, DateOf(day).month, DateOf(day).day)
      ensures IsDay(DateOf(day).month, DateOf(day).day) && SundayFirst(day) <= 6
    {
      DateIsDay(day);
    }
    if RulesAgree(open, months, doms, dows) && !open.dow && !(open.month && open.dom) {
      AgreementIsAllOrNothing(open, months, doms, dows);
    }
  }

  lemma AgreementIsAllOrNothing(open: Open, months: set<int>, doms: set<int>, dows: set<int>)
    requires RulesAgree(open, months, doms, dows) && !open.dow && !(open.month && open.dom)
    ensures || (EveryDate(months, doms) && forall w | 0 <= w <= 6 :: w in dows)
            || (NoDate(months, doms) && forall w | 0 <= w <= 6 :: w !in dows)
  {
    forall month: nat, k: nat | IsDay(month, k)
      ensures HasDate(months, doms, month, k) <==> 0 in dows
    {
      AgreementSpreads(open, months, doms, dows, month, k, 0);
    }
    forall w | 0 <= w <= 6
      ensures w in dows <==> HasDate(months, doms, 1, 1)
    {
      AgreementSpreads(open, months, doms, dows, 1, 1, w);
    }
    assert IsDay(1, 1);
  }

  /** Friday the 13th: the code wants both, crontab takes every Friday and every 13th. */
  lemma FridayThe13th(months: set<int>)
    requires forall m | 1 <= m <= 12 :: m in months
    ensures !RulesAgree(Open(true, false, false), months, {13}, {5})
  {
    assert IsDay(1, 13) && HasDate(months, {13}, 1, 13) && IsDay(1, 1) && !HasDate(months, {13}, 1, 1);
    RulesAgreeExactly(Open(true, false, false), months, {13}, {5});
  }
}
