/** Schedule validation and the search for the next run of an interval or cron schedule.
    Instants are microseconds since 0001-01-01 00:00 UTC. */
module NextRun {
  import opened Common
  import opened AsciiText
  import opened Calendar
  import opened CronText
  import opened SlotSearch

  const MINIMUM_INTERVAL_MINUTES: nat := 60
  const MAXIMUM_INTERVAL_MINUTES: nat := 525600
  const DEFAULT_INTERVAL_MINUTES: nat := 1440

  // ----- Validation -----

  datatype Verdict =
    | Accepted | Empty | WrongFieldCount | MinuteNotFixed | MinuteOutOfRange
    | BadHour | BadDayOfMonth | BadMonth | BadDayOfWeek

  // `validate_cron_expression`
  function ValidateCron(expr: Option<string>): Verdict {
    if expr.None? || Words(expr.value) == [] then Empty
    else
      var parts := Words(expr.value);
      if |parts| != 5 then WrongFieldCount
      else if !(IsNumber(parts[0]) && |parts[0]| <= 2) then MinuteNotFixed
      else if Value(parts[0]) > 59 then MinuteOutOfRange
      else if !ValidField(parts[1], 0, 23) then BadHour
      else if !ValidField(parts[2], 1, 31) then BadDayOfMonth
      else if !ValidField(parts[3], 1, 12) then BadMonth
      else if !ValidField(parts[4], 0, 7) then BadDayOfWeek
      else Accepted
  }

  // `validate_interval_minutes`
  predicate ValidInterval(minutes: Option<int>) {
    minutes.Some? && MINIMUM_INTERVAL_MINUTES <= minutes.value <= MAXIMUM_INTERVAL_MINUTES
  }

  // ----- The expanded expression and the instants it matches -----

  datatype Cron = Cron(minute: nat, hours: set<int>, doms: set<int>, months: set<int>, dows: set<int>)

  // None stands for the ValueError of `int(parts[0])`.
  function ReadCron(parts: seq<string>): Option<Cron>
    requires |parts| == 5
  {
    if IsNumber(parts[0]) then
      Some(Cron(Value(parts[0]), FieldSet(parts[1], 0, 23), FieldSet(parts[2], 1, 31),
                FieldSet(parts[3], 1, 12), WeekdaySet(parts[4])))
    else None
  }

  // Sunday is 0.
  function SundayFirst(day: nat): nat { (Weekday(day) + 1) % 7 }

  // Slot h is the h-th hour since 0001-01-01 00:00.
  predicate SlotMatches(c: Cron, h: nat) {
    && DateOf(h / 24).month in c.months
    && DateOf(h / 24).day in c.doms
    && SundayFirst(h / 24) in c.dows
    && h % 24 in c.hours
  }

  function Hours(c: Cron): nat -> bool { (h: nat) => SlotMatches(c, h) }

  function NextCron(c: Cron, base: nat): Outcome {
    Next(Hours(c), c.minute, base)
  }

  // `calculate_next_run_at` as a function; `base` is never absent here.
  function NextRunAt(scheduleType: string, interval: Option<int>, expr: Option<string>, base: nat): Outcome {
    var kind := if scheduleType == "" then "INTERVAL" else Upper(scheduleType);
    if kind == "INTERVAL" then
      var minutes := if interval.Some? then interval.value else DEFAULT_INTERVAL_MINUTES;
      At(base + (if minutes < MINIMUM_INTERVAL_MINUTES then MINIMUM_INTERVAL_MINUTES else minutes) * MINUTE)
    else if kind == "CRON" && expr.Some? && |Words(expr.value)| == 5 then
      match ReadCron(Words(expr.value))
      case None => ValueError
      case Some(c) => NextCron(c, base)
    else
      At(base + DEFAULT_INTERVAL_MINUTES * MINUTE)
  }

  // ----- The source's loop -----

  method CalculateNextRunAt(scheduleType: string, interval: Option<int>, expr: Option<string>, base: nat)
    returns (next: Outcome)
    ensures next == NextRunAt(scheduleType, interval, expr, base)
  {
    var kind := if scheduleType != "" then Upper(scheduleType) else "INTERVAL";
    if kind == "INTERVAL" {
      var minutes := if interval.Some? then interval.value else DEFAULT_INTERVAL_MINUTES;
      var safe := if minutes > MINIMUM_INTERVAL_MINUTES then minutes else MINIMUM_INTERVAL_MINUTES;
      return At(base + safe * MINUTE);
    }
    if kind == "CRON" {
      if expr.None? || expr.value == "" {
        return At(base + 1440 * MINUTE);
      }
      var parts := Words(expr.value);
      if |parts| != 5 {
        return At(base + 1440 * MINUTE);
      }
      if !IsNumber(parts[0]) {
        return ValueError;
      }
      var c := ExpandFields(parts);
      next := SearchLoop(Hours(c), c.minute, base);
      return;
    }
    return At(base + 1440 * MINUTE);
  }

  method ExpandFields(parts: seq<string>) returns (c: Cron)
    requires |parts| == 5 && IsNumber(parts[0])
    ensures Some(c) == ReadCron(parts)
  {
    var hours := MatchFieldValues(parts[1], 0, 23);
    var doms := MatchFieldValues(parts[2], 1, 31);
    var months := MatchFieldValues(parts[3], 1, 12);
    var dows := MatchFieldValues(parts[4], 0, 6);
    var all := MatchFieldValues(parts[4], 0, 7);
    if 7 in all {
      dows := dows + {0};
    }
    assert dows == WeekdaySet(parts[4]);
    c := Cron(Value(parts[0]), hours, doms, months, dows);
  }

  // ----- When the search succeeds -----

  // A daily-unrestricted expression with an hour and a date that exists in every year.
  predicate Recurring(c: Cron, hour: nat, month: nat, day: nat) {
    && c.minute <= 59
    && (forall d: nat | 0 <= d < 7 :: d in c.dows)
    && hour < 24 && hour in c.hours
    && YearlyDate(month, day) && month in c.months && day in c.doms
  }

  // Every 8784 consecutive slots contain a matching one.
  lemma RecurringSlot(c: Cron, hour: nat, month: nat, day: nat, first: nat) returns (h: nat)
    requires Recurring(c, hour, month, day)
    ensures first <= h < first + MAX_STEPS && SlotMatches(c, h)
  {
    var start := if first % 24 <= hour then first / 24 else first / 24 + 1;
    var d := YearlyDateRecurs(start, month, day);
    h := d * 24 + hour;
    assert h / 24 == d && h % 24 == hour;
  }

  /** With the weekday unrestricted, some hour, and some date that exists in every year, the
      fallback fires exactly when the first visited hour matches, has already passed, and is the
      only matching hour of the window. */
  lemma RecurringFallsBackExactly(c: Cron, base: nat, hour: nat, month: nat, day: nat)
    requires Recurring(c, hour, month, day)
    ensures NoMatchInWindow(Hours(c), c.minute, base) <==>
            && FirstSlotPassed(Hours(c), c.minute, base)
            && (forall h | FirstSlot(base) < h < FirstSlot(base) + MAX_STEPS :: !Hours(c)(h))
  {
    FallbackExactly(Hours(c), c.minute, base);
    var h := RecurringSlot(c, hour, month, day, FirstSlot(base));
    assert Hours(c)(h);
  }

  /** So unless the first visited hour is a matching hour whose minute has passed, a match is found. */
  lemma RecurringIsFound(c: Cron, base: nat, hour: nat, month: nat, day: nat)
    requires Recurring(c, hour, month, day) && !FirstSlotPassed(Hours(c), c.minute, base)
    ensures NextCron(c, base).At?
    ensures LeastMatchAfter(Hours(c), c.minute, base, NextCron(c, base).time) && InWindow(base, NextCron(c, base).time)
  {
    RecurringFallsBackExactly(c, base, hour, month, day);
    NextIsLeast(Hours(c), c.minute, base);
  }

  // ----- The leap-year miss -----

  // `0 0 1 1 *`
  const NEW_YEAR: Cron := Cron(0, {0}, {1}, {1}, {0, 1, 2, 3, 4, 5, 6})

  lemma NewYearOf(day: nat) returns (year: nat)
    requires FallsOn(day, 1, 1)
    ensures 1 <= year && day == DaysBeforeYear(year)
  {
    var date := DateOf(day);
    year := date.year;
    assert date == Date(year, 1, 1) && DaysBeforeMonth(year, 1) == 0;
  }

  // A day strictly between two consecutive New Year's Days is not January 1st.
  lemma NotNewYear(year: nat, day: nat)
    requires 1 <= year && DaysBeforeYear(year) < day < DaysBeforeYear(year + 1)
    ensures !FallsOn(day, 1, 1)
  {
    if FallsOn(day, 1, 1) {
      var y := NewYearOf(day);
      if y < year { YearsIncrease(y, year); }
      if y > year + 1 { YearsIncrease(year + 1, y); }
    }
  }

  lemma YearlySlot(c: Cron, hour: nat, month: nat, k: nat, h: nat)
    requires c.hours == {hour} && c.doms == {k} && c.months == {month}
    requires forall d | 0 <= d < 7 :: d in c.dows
    ensures Hours(c)(h) <==> FallsOn(h / 24, month, k) && h % 24 == hour
  {
  }

  lemma NewYearSlot(h: nat)
    ensures Hours(NEW_YEAR)(h) <==> FallsOn(h / 24, 1, 1) && h % 24 == 0
  {
    YearlySlot(NEW_YEAR, 0, 1, 1, h);
  }

  lemma NewYearSlots(year: nat, h: nat)
    requires 1 <= year && DaysBeforeYear(year) * 24 <= h <= DaysBeforeYear(year + 1) * 24
    ensures Hours(NEW_YEAR)(h) <==> h == DaysBeforeYear(year) * 24 || h == DaysBeforeYear(year + 1) * 24
  {
    NewYearSlot(h);
    var a, b, d := DaysBeforeYear(year), DaysBeforeYear(year + 1), h / 24;
    assert a <= d <= b;
    if a < d < b {
      NotNewYear(year, d);
    } else {
      NewYearsDay(if d == a then year else year + 1);
    }
  }

  lemma NewYearsDay(year: nat)
    requires 1 <= year
    ensures FallsOn(DaysBeforeYear(year), 1, 1)
  {
    var date := Date(year, 1, 1);
    assert DaysBeforeMonth(year, 1) == 0;
    assert DayNumber(date) == DaysBeforeYear(year);
    DateOfDayNumber(date);
  }

  /** In a leap year, `0 0 1 1 *` searched from midnight of New Year's Day next matches at the
      following New Year's Day, exactly 8784 hours later and one slot past the last one visited:
      the result is midnight of January 2nd, which does not match. */
  lemma LeapYearMiss(year: nat, base: nat)
    requires 1 <= year && IsLeap(year) && base == DaysBeforeYear(year) * DAY
    ensures FirstSlotPassed(Hours(NEW_YEAR), 0, base)
    ensures Next(Hours(NEW_YEAR), 0, base) == At(base + DAY)
    ensures !Matches(Hours(NEW_YEAR), 0, base + DAY)
    ensures LeastMatchAfter(Hours(NEW_YEAR), 0, base, base + 8784 * HOUR)
    ensures base + 8784 * HOUR == DaysBeforeYear(year + 1) * DAY
  {
    var first := DaysBeforeYear(year) * 24;
    var on := Hours(NEW_YEAR);
    assert DaysBeforeYear(year + 1) == DaysBeforeYear(year) + 366;
    forall h | first <= h <= first + MAX_STEPS
      ensures on(h) <==> h == first || h == first + MAX_STEPS
    {
      NewYearSlots(year, h);
    }
    OneSlotTooFar(on, first, base);
  }

  // ----- Spacing of successive runs -----

  // What `create_schedule` and the engine demand of a schedule before it is used.
  predicate ValidSchedule(scheduleType: string, interval: Option<int>, expr: Option<string>) {
    || (scheduleType == "CRON" && ValidateCron(expr) == Accepted)
    || (scheduleType == "INTERVAL" && ValidInterval(interval))
  }

  /** An interval is accepted from an hour to a year. */
  lemma IntervalJudgedExactly(minutes: Option<int>)
    ensures ValidInterval(minutes) <==> minutes.Some? && 60 <= minutes.value && minutes.value <= 365 * 24 * 60
  {
  }

  lemma UpperOfKinds()
    ensures Upper("CRON") == "CRON" && Upper("INTERVAL") == "INTERVAL"
  {
  }

  /** A validated schedule always has a next run, strictly later than its base. */
  lemma ValidScheduleAdvances(scheduleType: string, interval: Option<int>, expr: Option<string>, base: nat)
    requires ValidSchedule(scheduleType, interval, expr)
    ensures NextRunAt(scheduleType, interval, expr, base).At?
    ensures NextRunAt(scheduleType, interval, expr, base).time > base
  {
    UpperOfKinds();
    if scheduleType == "CRON" {
      var c := ReadCron(Words(expr.value)).value;
      NextIsLeast(Hours(c), c.minute, base);
    }
  }

  /** Successive runs of a validated schedule are at least an hour apart. */
  lemma ValidScheduleSpacing(scheduleType: string, interval: Option<int>, expr: Option<string>, b1: nat, b2: nat)
    requires ValidSchedule(scheduleType, interval, expr)
    requires NextRunAt(scheduleType, interval, expr, b1).At? ==> b2 >= NextRunAt(scheduleType, interval, expr, b1).time
    ensures NextRunAt(scheduleType, interval, expr, b2).At? && NextRunAt(scheduleType, interval, expr, b1).At?
    ensures NextRunAt(scheduleType, interval, expr, b2).time
            >= NextRunAt(scheduleType, interval, expr, b1).time + 3_600_000_000
  {
    UpperOfKinds();
    ValidScheduleAdvances(scheduleType, interval, expr, b1);
    ValidScheduleAdvances(scheduleType, interval, expr, b2);
    if scheduleType == "CRON" {
      var c := ReadCron(Words(expr.value)).value;
      Spacing(Hours(c), c.minute, b1, b2);
    }
  }

  /** A later base never gives an earlier run. */
  lemma ValidScheduleMonotone(scheduleType: string, interval: Option<int>, expr: Option<string>, b1: nat, b2: nat)
    requires ValidSchedule(scheduleType, interval, expr) && b1 <= b2
    ensures NextRunAt(scheduleType, interval, expr, b1).At? && NextRunAt(scheduleType, interval, expr, b2).At?
    ensures NextRunAt(scheduleType, interval, expr, b1).time <= NextRunAt(scheduleType, interval, expr, b2).time
  {
    UpperOfKinds();
    ValidScheduleAdvances(scheduleType, interval, expr, b1);
    ValidScheduleAdvances(scheduleType, interval, expr, b2);
    if scheduleType == "CRON" {
      var c := ReadCron(Words(expr.value)).value;
      NextIsMonotone(Hours(c), c.minute, b1, b2);
    }
  }

  /** An accepted expression written in the cron notation runs at exactly the instants the
      notation names: minute, hour, day of month, month and weekday all at once. */
  lemma AcceptedTextMatches(minute: nat, hour: Field, dom: Field, month: Field, dow: Field, t: nat)
    requires minute <= 59
    requires WellFormed(hour, 0, 23) && WellFormed(dom, 1, 31) && WellFormed(month, 1, 12) && WellFormed(dow, 0, 7)
    ensures var text := CronLine(minute, hour, dom, month, dow);
            && ValidateCron(Some(text)) == Accepted
            && ReadCron(Words(text)).Some?
            && var date := DateOf(t / HOUR / 24);
               Matches(Hours(ReadCron(Words(text)).value), minute, t) <==>
                 (&& t % HOUR == minute * MINUTE
                  && Denotes(hour, t / HOUR % 24, 0, 23)
                  && Denotes(dom, date.day, 1, 31)
                  && Denotes(month, date.month, 1, 12)
                  && exists d | 0 <= d <= 7 :: Denotes(dow, d, 0, 7) && d % 7 == DayOfWeek(date))
  {
    var c := ShownIsRead(minute, hour, dom, month, dow);
    SundayFirstClosed(t / HOUR / 24);
    WeekdayMeaning(dow, SundayFirst(t / HOUR / 24));
  }

  /** The weekday the code compares is the calendar's. */
  lemma SundayFirstClosed(day: nat)
    ensures SundayFirst(day) == DayOfWeek(DateOf(day))
  {
    WeekdayClosed(DateOf(day));
  }

  /** January 7th of 2024 was a Sunday. */
  lemma KnownSunday()
    ensures SundayFirst(DayNumber(Date(2024, 1, 7))) == 0
  {
    WeekdayClosed(Date(2024, 1, 7));
  }

  function CronLine(minute: nat, hour: Field, dom: Field, month: Field, dow: Field): string
    requires Writable(hour) && Writable(dom) && Writable(month) && Writable(dow)
  {
    Join([Digits(minute), Show(hour), Show(dom), Show(month), Show(dow)], ' ')
  }

  lemma WeekdayMeaning(dow: Field, sunday: nat)
    requires WellFormed(dow, 0, 7) && sunday < 7
    ensures sunday in WeekdaySet(Show(dow))
            <==> exists d | 0 <= d <= 7 :: Denotes(dow, d, 0, 7) && d % 7 == sunday
  {
    ShownExpandsToMeaning(dow, 0, 7);
    WeekdaysModSeven(Show(dow));
  }

  // The expression that a written one is read as.
  lemma ShownIsRead(minute: nat, hour: Field, dom: Field, month: Field, dow: Field) returns (c: Cron)
    requires minute <= 59
    requires WellFormed(hour, 0, 23) && WellFormed(dom, 1, 31) && WellFormed(month, 1, 12) && WellFormed(dow, 0, 7)
    ensures var text := CronLine(minute, hour, dom, month, dow);
            |Words(text)| == 5 && ValidateCron(Some(text)) == Accepted && ReadCron(Words(text)) == Some(c)
    ensures c.minute == minute && c.dows == WeekdaySet(Show(dow))
    ensures forall v :: v in c.hours <==> Denotes(hour, v, 0, 23)
    ensures forall v :: v in c.doms <==> Denotes(dom, v, 1, 31)
    ensures forall v :: v in c.months <==> Denotes(month, v, 1, 12)
  {
    var words := [Digits(minute), Show(hour), Show(dom), Show(month), Show(dow)];
    WordsOfLine(minute, hour, dom, month, dow);
    TwoDigits(minute);
    ValueOfDigits(minute);
    ShownExpandsToMeaning(hour, 0, 23);
    ShownExpandsToMeaning(dom, 1, 31);
    ShownExpandsToMeaning(month, 1, 12);
    ShownExpandsToMeaning(dow, 0, 7);
    c := ReadCron(words).value;
  }

  lemma WordsOfLine(minute: nat, hour: Field, dom: Field, month: Field, dow: Field)
    requires Writable(hour) && Writable(dom) && Writable(month) && Writable(dow)
    ensures Words(CronLine(minute, hour, dom, month, dow))
            == [Digits(minute), Show(hour), Show(dom), Show(month), Show(dow)]
  {
    DigitsAreAWord(minute);
    ShownIsAWord(hour);
    ShownIsAWord(dom);
    ShownIsAWord(month);
    ShownIsAWord(dow);
    WordsOfJoin([Digits(minute), Show(hour), Show(dom), Show(month), Show(dow)]);
  }

  lemma TwoDigits(minute: nat)
    ensures |Digits(minute)| <= 2 <==> minute <= 99
  {
    if minute >= 10 {
      assert Digits(minute) == Digits(minute / 10) + Digits(minute)[|Digits(minute)| - 1..];
      assert minute / 10 >= 10 <==> minute > 99;
    }
  }

  /** What the validator answers to a written expression: it is accepted if and only if the minute is at
      most 59 and each other field is well formed in its own bounds, and otherwise the first field at
      fault is named. */
  lemma ExpressionJudgedExactly(minute: nat, hour: Field, dom: Field, month: Field, dow: Field)
    requires Writable(hour) && Writable(dom) && Writable(month) && Writable(dow)
    ensures ValidateCron(Some(CronLine(minute, hour, dom, month, dow))) ==
            if minute > 99 then MinuteNotFixed
            else if minute > 59 then MinuteOutOfRange
            else if !WellFormed(hour, 0, 23) then BadHour
            else if !WellFormed(dom, 1, 31) then BadDayOfMonth
            else if !WellFormed(month, 1, 12) then BadMonth
            else if !WellFormed(dow, 0, 7) then BadDayOfWeek
            else Accepted
  {
    WordsOfLine(minute, hour, dom, month, dow);
    TwoDigits(minute);
    ValueOfDigits(minute);
    WrittenIsWellFormed(hour, 0, 23);
    WrittenIsWellFormed(dom, 1, 31);
    WrittenIsWellFormed(month, 1, 12);
    WrittenIsWellFormed(dow, 0, 7);
  }

  lemma WrittenIsWellFormed(f: Field, lo: nat, hi: nat)
    requires Writable(f)
    ensures ValidField(Show(f), lo, hi) <==> WellFormed(f, lo, hi)
  {
    FieldAcceptedExactly(f, lo, hi);
    if f.List? {
      assert forall i | 0 <= i < |f.items| :: f.items[i] in f.items;
    }
  }

  // ----- What is not a cron expression -----

  /** An interval schedule runs every max(60, minutes) minutes, a day where none are given. */
  lemma IntervalAdds(scheduleType: string, interval: Option<int>, expr: Option<string>, base: nat)
    requires scheduleType == "" || Upper(scheduleType) == "INTERVAL"
    ensures NextRunAt(scheduleType, interval, expr, base)
            == At(base + 60_000_000 * (if interval.None? then 1440 else if interval.value > 60 then interval.value
                                       else 60))
  {
    IntervalIsUpper();
  }

  lemma IntervalIsUpper()
    ensures Upper("INTERVAL") == "INTERVAL"
  {
  }

  /** Any other kind, and a cron schedule without five words, waits a day; one whose first word is not a
      number is an error. */
  lemma OthersWaitADay(scheduleType: string, interval: Option<int>, expr: Option<string>, base: nat)
    requires scheduleType != "" && Upper(scheduleType) != "INTERVAL"
    ensures Upper(scheduleType) != "CRON" || expr.None? || |Words(expr.value)| != 5 ==>
              NextRunAt(scheduleType, interval, expr, base) == At(base + 86_400_000_000)
    ensures Upper(scheduleType) == "CRON" && expr.Some? && |Words(expr.value)| == 5
            && !IsNumber(Words(expr.value)[0]) ==>
              NextRunAt(scheduleType, interval, expr, base) == ValueError
  {
  }

  lemma ShownExpandsToMeaning(f: Field, lo: nat, hi: nat)
    requires WellFormed(f, lo, hi)
    ensures ValidField(Show(f), lo, hi)
    ensures forall v :: v in FieldSet(Show(f), lo, hi) <==> Denotes(f, v, lo, hi)
  {
    ParseOfShow(f, lo, hi);
    ExpansionIsMeaning(Show(f), lo, hi);
  }

  lemma DigitsAreAWord(n: nat)
    ensures IsWord(Digits(n))
  {
    var s := Digits(n);
    assert forall i | 0 <= i < |s| :: s[i] in s;
  }

  lemma ShownIsAWord(f: Field)
    requires Writable(f)
    ensures IsWord(Show(f))
  {
    match f
    case Every =>
    case Steps(Star, k) => DigitsAreAWord(k);
    case Steps(From(n), k) => DigitsAreAWord(n); DigitsAreAWord(k);
    case Steps(Between(a, b), k) => DigitsAreAWord(a); DigitsAreAWord(b); DigitsAreAWord(k);
    case Range(a, b) => DigitsAreAWord(a); DigitsAreAWord(b);
    case List(items) =>
      JoinIsAWord(items);
  }

  lemma {:induction false} JoinIsAWord(items: seq<nat>)
    requires items != []
    ensures IsWord(Join(ShowAll(items), ','))
  {
    DigitsAreAWord(items[0]);
    if |items| > 1 {
      assert ShowAll(items)[1..] == ShowAll(items[1..]);
      JoinIsAWord(items[1..]);
    }
  }
}
