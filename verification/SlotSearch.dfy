/** The hour-by-hour search for the next instant at a fixed minute of a matching hour.
    `on` says which hours match; slot h is the h-th hour since 0001-01-01 00:00, and instants
    are microseconds since then. */
module SlotSearch {

  const MINUTE: nat := 60_000_000
  const HOUR: nat := 3_600_000_000
  const DAY: nat := 86_400_000_000
  const MAX_STEPS: nat := 8784  // 366 * 24

  datatype Outcome = At(time: nat) | ValueError

  function InSlot(minute: nat, h: nat): nat { h * HOUR + minute * MINUTE }

  function FloorMinute(t: nat): nat { t - t % MINUTE }

  // The hour of `base` cut to the minute, plus one minute.
  function FirstSlot(base: nat): nat { (FloorMinute(base) + MINUTE) / HOUR }

  predicate Matches(on: nat -> bool, minute: nat, t: nat) {
    t % HOUR == minute * MINUTE && on(t / HOUR)
  }

  function Search(on: nat -> bool, minute: nat, base: nat, h: nat, steps: nat): Outcome
    decreases steps
  {
    if steps == 0 then At(base + DAY)
    else if on(h) && minute > 59 then ValueError
    else if on(h) && InSlot(minute, h) > base then At(InSlot(minute, h))
    else Search(on, minute, base, h + 1, steps - 1)
  }

  function Next(on: nat -> bool, minute: nat, base: nat): Outcome {
    Search(on, minute, base, FirstSlot(base), MAX_STEPS)
  }

  // `curr.replace(minute=m)`
  function ReplaceMinute(t: nat, m: nat): nat {
    t - (t % HOUR) / MINUTE * MINUTE + m * MINUTE
  }

  method Replace(t: nat, m: nat) returns (r: nat)
    requires t % MINUTE == 0
    ensures r == InSlot(m, t / HOUR)
  {
    ReplaceInSlot(t, m);
    r := ReplaceMinute(t, m);
  }

  // One minute after the minute of base.
  method MinuteAfter(base: nat) returns (curr: nat)
    ensures curr % MINUTE == 0 && curr / HOUR == FirstSlot(base)
  {
    curr := base - base % MINUTE + MINUTE;
    WholeMinute(base);
    assert curr == FloorMinute(base) + MINUTE;
  }

  // `(curr + timedelta(hours=1)).replace(minute=0)`
  method NextHour(curr: nat) returns (next: nat)
    requires curr % MINUTE == 0
    ensures next % MINUTE == 0 && next / HOUR == curr / HOUR + 1
  {
    HourLater(curr);
    next := Replace(curr + HOUR, 0);
    SlotOfInSlot(0, curr / HOUR + 1);
  }

  // The source's loop: `curr` starts one minute after base and then steps to whole hours.
  method SearchLoop(on: nat -> bool, minute: nat, base: nat) returns (next: Outcome)
    ensures next == Next(on, minute, base)
  {
    var curr := MinuteAfter(base);
    ghost var h := FirstSlot(base);
    for i := 0 to MAX_STEPS
      invariant curr % MINUTE == 0 && curr / HOUR == h
      invariant Search(on, minute, base, h, MAX_STEPS - i) == Next(on, minute, base)
    {
      if on(curr / HOUR) {
        if minute > 59 {
          return ValueError;
        }
        var candidate := Replace(curr, minute);
        if candidate > base {
          return At(candidate);
        }
      }
      curr := NextHour(curr);
      h := h + 1;
    }
    return At(base + DAY);
  }

  // ----- Arithmetic of slots -----

  lemma WholeMinute(t: nat)
    ensures (FloorMinute(t) + MINUTE) % MINUTE == 0
  {
  }

  lemma WholeMinutes(n: nat)
    ensures (n * MINUTE) % MINUTE == 0 && (n * MINUTE) / MINUTE == n
  {
  }

  lemma ReplaceInSlot(t: nat, m: nat)
    requires t % MINUTE == 0
    ensures ReplaceMinute(t, m) == InSlot(m, t / HOUR)
  {
    var n, q := t / MINUTE, t / HOUR;
    assert t == n * MINUTE && t % HOUR == (n - 60 * q) * MINUTE;
    WholeMinutes(n - 60 * q);
  }

  lemma HourLater(t: nat)
    requires t % MINUTE == 0
    ensures (t + HOUR) % MINUTE == 0 && (t + HOUR) / HOUR == t / HOUR + 1
  {
    var n := t / MINUTE;
    assert t + HOUR == (n + 60) * MINUTE;
    WholeMinutes(n + 60);
  }

  lemma SlotOfInSlot(minute: nat, h: nat)
    requires minute <= 59
    ensures InSlot(minute, h) / HOUR == h && InSlot(minute, h) % HOUR == minute * MINUTE
    ensures InSlot(minute, h) % MINUTE == 0
  {
    assert InSlot(minute, h) == (60 * h + minute) * MINUTE;
    WholeMinutes(60 * h + minute);
  }

  lemma MatchIsInSlot(on: nat -> bool, minute: nat, t: nat)
    requires Matches(on, minute, t)
    ensures t == InSlot(minute, t / HOUR) && t % MINUTE == 0
  {
    var q := t / HOUR;
    assert t == q * HOUR + minute * MINUTE == (60 * q + minute) * MINUTE;
    WholeMinutes(60 * q + minute);
  }

  lemma MatchesFarApart(on: nat -> bool, minute: nat, t: nat, u: nat)
    requires Matches(on, minute, t) && Matches(on, minute, u) && t < u
    ensures u >= t + HOUR
  {
    MatchIsInSlot(on, minute, t);
    MatchIsInSlot(on, minute, u);
  }

  // A whole minute after base is in the first visited slot or later.
  lemma NotBeforeFirstSlot(base: nat, t: nat)
    requires base < t && t % MINUTE == 0
    ensures FirstSlot(base) <= t / HOUR
  {
    assert FloorMinute(base) + MINUTE <= t;
  }

  lemma FirstSlotMonotone(b1: nat, b2: nat)
    requires b1 <= b2
    ensures FirstSlot(b1) <= FirstSlot(b2)
  {
    assert b1 / MINUTE <= b2 / MINUTE;
    assert FloorMinute(b1) <= FloorMinute(b2);
  }

  lemma FirstSlotReachesBase(base: nat)
    ensures base / HOUR <= FirstSlot(base) <= base / HOUR + 1 && base < FirstSlot(base) * HOUR + HOUR
  {
  }

  lemma LaterSlotIsAfterBase(minute: nat, base: nat, h: nat)
    requires FirstSlot(base) < h
    ensures base < InSlot(minute, h)
  {
    FirstSlotReachesBase(base);
  }

  // ----- What the search finds -----

  // The least matching instant strictly after base.
  ghost predicate LeastMatchAfter(on: nat -> bool, minute: nat, base: nat, t: nat) {
    base < t && Matches(on, minute, t) && forall u | base < u < t :: !Matches(on, minute, u)
  }

  // The slots the loop visits.
  predicate InWindow(base: nat, t: nat) {
    FirstSlot(base) <= t / HOUR < FirstSlot(base) + MAX_STEPS
  }

  ghost predicate NoMatchInWindow(on: nat -> bool, minute: nat, base: nat) {
    forall t | base < t && Matches(on, minute, t) :: !InWindow(base, t)
  }

  // Slot k is visited at or after h and its instant is the result's.
  predicate Hit(on: nat -> bool, minute: nat, base: nat, k: nat) {
    on(k) && InSlot(minute, k) > base
  }

  ghost predicate FirstHitFrom(on: nat -> bool, minute: nat, base: nat, h: nat, k: nat) {
    h <= k && Hit(on, minute, base, k) && forall j | h <= j < k :: !Hit(on, minute, base, j)
  }

  lemma {:induction false} SearchFinds(on: nat -> bool, minute: nat, base: nat, h: nat, steps: nat) returns (k: nat)
    requires minute <= 59
    ensures Search(on, minute, base, h, steps).At?
    ensures var r := Search(on, minute, base, h, steps).time;
            || (k < h + steps && r == InSlot(minute, k) && FirstHitFrom(on, minute, base, h, k))
            || (r == base + DAY && forall j | h <= j < h + steps :: !Hit(on, minute, base, j))
    decreases steps
  {
    k := h;
    if steps > 0 && !Hit(on, minute, base, h) {
      k := SearchFinds(on, minute, base, h + 1, steps - 1);
    }
  }

  /** The search returns the least matching instant strictly after base if its hour is one of the
      8784 visited slots, and exactly base + 1 day otherwise. */
  lemma NextIsLeast(on: nat -> bool, minute: nat, base: nat)
    requires minute <= 59
    ensures Next(on, minute, base).At?
    ensures var r := Next(on, minute, base).time;
            || (LeastMatchAfter(on, minute, base, r) && InWindow(base, r))
            || (NoMatchInWindow(on, minute, base) && r == base + DAY)
  {
    var first := FirstSlot(base);
    var k := SearchFinds(on, minute, base, first, MAX_STEPS);
    var r := Next(on, minute, base).time;
    forall u | base < u && Matches(on, minute, u)
      ensures first <= u / HOUR && Hit(on, minute, base, u / HOUR) && u == InSlot(minute, u / HOUR)
    {
      MatchIsInSlot(on, minute, u);
      NotBeforeFirstSlot(base, u);
    }
    SlotOfInSlot(minute, k);
    if r == InSlot(minute, k) && FirstHitFrom(on, minute, base, first, k) && k < first + MAX_STEPS {
      forall u | base < u < r
        ensures !Matches(on, minute, u)
      {
        assert u / HOUR <= k;
      }
    }
  }

  /** The two cases exclude each other, so this description determines the result. */
  lemma NextDetermined(on: nat -> bool, minute: nat, base: nat, r: nat)
    requires minute <= 59
    requires || (LeastMatchAfter(on, minute, base, r) && InWindow(base, r))
             || (NoMatchInWindow(on, minute, base) && r == base + DAY)
    ensures Next(on, minute, base) == At(r)
  {
    NextIsLeast(on, minute, base);
  }

  /** A match recomputed from any base before it is due stays where it is. */
  lemma RecomputedMatchIsStable(on: nat -> bool, minute: nat, b1: nat, b2: nat)
    requires minute <= 59 && !NoMatchInWindow(on, minute, b1)
    requires Next(on, minute, b1).At? ==> b1 <= b2 < Next(on, minute, b1).time
    ensures Next(on, minute, b2) == Next(on, minute, b1)
  {
    NextIsLeast(on, minute, b1);
    var r := Next(on, minute, b1).time;
    MatchIsInSlot(on, minute, r);
    NotBeforeFirstSlot(b2, r);
    FirstSlotMonotone(b1, b2);
    NextDetermined(on, minute, b2, r);
  }

  /** Successive results are at least an hour apart, whether matched or fallen back. */
  lemma Spacing(on: nat -> bool, minute: nat, b1: nat, b2: nat)
    requires minute <= 59
    requires Next(on, minute, b1).At? ==> b2 >= Next(on, minute, b1).time
    ensures Next(on, minute, b1).At? && Next(on, minute, b2).At?
    ensures Next(on, minute, b2).time >= Next(on, minute, b1).time + 60 * MINUTE
  {
    NextIsLeast(on, minute, b1);
    NextIsLeast(on, minute, b2);
    var r1, r2 := Next(on, minute, b1).time, Next(on, minute, b2).time;
    if r2 == b2 + DAY {
    } else if LeastMatchAfter(on, minute, b1, r1) {
      MatchesFarApart(on, minute, r1, r2);
    } else {
      FallbackIsFarFromMatch(on, minute, b1, r2);
    }
  }

  lemma FallbackIsFarFromMatch(on: nat -> bool, minute: nat, base: nat, t: nat)
    requires NoMatchInWindow(on, minute, base) && base < t && Matches(on, minute, t)
    ensures t >= base + DAY + HOUR
  {
    MatchIsInSlot(on, minute, t);
    NotBeforeFirstSlot(base, t);
    assert !InWindow(base, t);
    FirstSlotReachesBase(base);
    assert t / HOUR >= base / HOUR + MAX_STEPS;
  }

  /** A later base never gives an earlier result. */
  lemma NextIsMonotone(on: nat -> bool, minute: nat, b1: nat, b2: nat)
    requires minute <= 59 && b1 <= b2
    ensures Next(on, minute, b1).At? && Next(on, minute, b2).At?
    ensures Next(on, minute, b1).time <= Next(on, minute, b2).time
  {
    NextIsLeast(on, minute, b1);
    NextIsLeast(on, minute, b2);
    var r1, r2 := Next(on, minute, b1).time, Next(on, minute, b2).time;
    if b2 < r1 && LeastMatchAfter(on, minute, b1, r1) {
      MatchFromLaterBase(on, minute, b1, b2, r1, r2);
    } else if b2 < r1 && r2 != b2 + DAY {
      FallbackIsFarFromMatch(on, minute, b1, r2);
    }
  }

  // A match ahead of both bases is found from both.
  lemma MatchFromLaterBase(on: nat -> bool, minute: nat, b1: nat, b2: nat, r1: nat, r2: nat)
    requires minute <= 59 && b1 <= b2 < r1 && Next(on, minute, b1) == At(r1) && Next(on, minute, b2) == At(r2)
    requires LeastMatchAfter(on, minute, b1, r1)
    ensures r1 <= r2
  {
    NextIsLeast(on, minute, b1);
    if NoMatchInWindow(on, minute, b1) {
      FallbackIsFarFromMatch(on, minute, b1, r1);
    } else {
      RecomputedMatchIsStable(on, minute, b1, b2);
    }
  }

  // The first visited hour matches, but its target minute is not after base.
  predicate FirstSlotPassed(on: nat -> bool, minute: nat, base: nat) {
    on(FirstSlot(base)) && InSlot(minute, FirstSlot(base)) <= base
  }

  /** The fallback fires exactly when no visited hour matches except possibly a first one that
      has already passed. */
  lemma FallbackExactly(on: nat -> bool, minute: nat, base: nat)
    requires minute <= 59
    ensures NoMatchInWindow(on, minute, base) <==>
            && (on(FirstSlot(base)) ==> FirstSlotPassed(on, minute, base))
            && (forall h | FirstSlot(base) < h < FirstSlot(base) + MAX_STEPS :: !on(h))
  {
    var first := FirstSlot(base);
    if NoMatchInWindow(on, minute, base) {
      forall h | first <= h < first + MAX_STEPS && on(h)
        ensures h == first && InSlot(minute, h) <= base
      {
        SlotOfInSlot(minute, h);
        assert InSlot(minute, h) > base ==> !InWindow(base, InSlot(minute, h));
        if first < h { LaterSlotIsAfterBase(minute, base, h); }
      }
    }
    forall t | base < t && Matches(on, minute, t)
      ensures first <= t / HOUR && t == InSlot(minute, t / HOUR)
    {
      MatchIsInSlot(on, minute, t);
      NotBeforeFirstSlot(base, t);
    }
  }

  /** A matching hour whose minute has just passed and whose successor is the slot after the last
      one visited: the search returns a day later, although the next match is 8784 hours later. */
  lemma OneSlotTooFar(on: nat -> bool, first: nat, base: nat)
    requires base == first * HOUR
    requires forall h | first <= h <= first + MAX_STEPS :: on(h) <==> h == first || h == first + MAX_STEPS
    ensures FirstSlotPassed(on, 0, base)
    ensures Next(on, 0, base) == At(base + DAY) && !Matches(on, 0, base + DAY)
    ensures LeastMatchAfter(on, 0, base, base + MAX_STEPS * HOUR)
  {
    assert FirstSlot(base) == first;
    FallbackExactly(on, 0, base);
    NextIsLeast(on, 0, base);
    assert (base + DAY) / HOUR == first + 24;
    forall u | base < u < base + MAX_STEPS * HOUR
      ensures !Matches(on, 0, u)
    {
      assert first <= u / HOUR < first + MAX_STEPS;
      assert u / HOUR == first ==> u % HOUR != 0;
    }
  }

  lemma {:induction false} BadMinuteSearch(on: nat -> bool, minute: nat, base: nat, h: nat, steps: nat)
    requires minute >= 60
    ensures Search(on, minute, base, h, steps)
            == if exists k | h <= k < h + steps :: on(k) then ValueError else At(base + DAY)
    decreases steps
  {
    if steps > 0 && !on(h) {
      BadMinuteSearch(on, minute, base, h + 1, steps - 1);
    }
  }

  /** A minute of 60 or more is an error exactly when one of the 8784 hours visited matches. */
  lemma BadMinuteExactly(on: nat -> bool, minute: nat, base: nat)
    requires minute >= 60
    ensures Next(on, minute, base)
            == if exists k | FirstSlot(base) <= k < FirstSlot(base) + 8784 :: on(k) then ValueError
               else At(base + 86_400_000_000)
  {
    BadMinuteSearch(on, minute, base, FirstSlot(base), MAX_STEPS);
  }
}
