/** The per-key request counter: INCR and EXPIRE as two separate Redis steps that any number of
    processes interleave. Times are milliseconds; `window` is the key's lifetime. */
module RateLimiter {
  import opened Common

  // A counter key; `dead` is the instant its TTL runs out, None while no TTL is set.
  datatype Key = Key(count: nat, dead: Option<nat>)

  predicate Live(key: Option<Key>, now: nat) {
    key.Some? && (key.value.dead.None? || now < key.value.dead.value)
  }

  // INCR: an absent or expired key starts again at 1, without a TTL.
  function IncrKey(key: Option<Key>, now: nat): Key {
    if Live(key, now) then key.value.(count := key.value.count + 1) else Key(1, None)
  }

  // EXPIRE: sets the TTL of a live key and does nothing to an absent one.
  function ExpireKey(key: Option<Key>, now: nat, window: nat): Option<Key> {
    if Live(key, now) then Some(key.value.(dead := Some(now + window))) else key
  }

  datatype Decision = Allowed | TooMany | Unavailable

  // ----- One call on the store -----

  class CounterStore {
    var now: nat
    var key: Option<Key>

    ghost predicate Valid()
      reads this
    {
      key.Some? ==> key.value.count >= 1
    }

    method Incr(fault: Fault) returns (count: Option<nat>)
      requires Valid()
      modifies this`key
      ensures Valid()
      ensures key == if fault == NotSent then old(key) else Some(IncrKey(old(key), now))
      ensures count == if fault == Works then Some(IncrKey(old(key), now).count) else None
    {
      count := None;
      if fault != NotSent {
        key := Some(IncrKey(key, now));
        if fault == Works {
          count := Some(key.value.count);
        }
      }
    }

    method Expire(window: nat, fault: Fault) returns (ok: bool)
      requires Valid()
      modifies this`key
      ensures Valid()
      ensures key == if fault == NotSent then old(key) else ExpireKey(old(key), now, window)
      ensures ok == (fault == Works)
    {
      if fault != NotSent && Live(key, now) {
        key := Some(key.value.(dead := Some(now + window)));
      }
      ok := fault == Works;
    }

    // `check_rate_limit` with nothing interleaved.
    method CheckRateLimit(limit: nat, window: nat, incr: Fault, expire: Fault) returns (d: Decision)
      requires Valid() && window > 0
      modifies this`key
      ensures Valid()
      ensures key == KeyAfter(old(key), now, window, incr, expire)
      ensures d == Decided(old(key), now, limit, incr, expire)
      ensures d == Allowed ==> Live(key, now) && key.value.count <= limit
      ensures d == TooMany ==> Live(key, now) && key.value.count > limit
    {
      var count := Incr(incr);
      if count.None? {
        return Unavailable;
      }
      if count.value == 1 {
        var ok := Expire(window, expire);
        if !ok {
          return Unavailable;
        }
      }
      return if count.value > limit then TooMany else Allowed;
    }
  }

  // The key one uninterrupted check leaves: a first request also sets the TTL.
  function KeyAfter(key: Option<Key>, now: nat, window: nat, incr: Fault, expire: Fault): Option<Key> {
    if incr == NotSent then key
    else if Live(key, now) then Some(key.value.(count := key.value.count + 1))
    else Some(Key(1, if incr == ReplyLost || expire == NotSent then None else Some(now + window)))
  }

  // Its answer: unavailable when a call it made did not come back, else by the count.
  function Decided(key: Option<Key>, now: nat, limit: nat, incr: Fault, expire: Fault): Decision {
    var count := if Live(key, now) then key.value.count + 1 else 1;
    if incr != Works || (count == 1 && expire != Works) then Unavailable
    else if count > limit then TooMany
    else Allowed
  }

  // ----- The protocol: any number of processes on one key -----

  // A request that was let through, stamped with the instant its INCR ran. `epoch` numbers the
  // key's lifetimes; `first` marks the request that created the key.
  datatype Pass = Pass(at: nat, epoch: nat, first: bool)

  // A process between its INCR, which returned 1, and its EXPIRE.
  datatype Waiting = Waiting(at: nat)

  // `starts` records when each lifetime of the key began.
  datatype State = State(now: nat, key: Option<Key>, waiting: map<nat, Waiting>, passes: seq<Pass>, starts: seq<nat>)

  datatype Step =
    | Tick(dt: nat)
    | Incr(pid: nat, fault: Fault)
    | Expire(pid: nat, fault: Fault)

  const INITIAL: State := State(0, None, map[], [], [])

  function Decide(s: State, limit: nat, count: nat, pass: Pass): State {
    if count > limit then s else s.(passes := s.passes + [pass])
  }

  // The number of the key's current lifetime.
  function Current(starts: seq<nat>): nat { if starts == [] then 0 else |starts| - 1 }

  function Apply(s: State, limit: nat, window: nat, step: Step): State {
    match step
    case Tick(dt) => s.(now := s.now + dt)
    case Incr(pid, fault) =>
      if pid in s.waiting || fault == NotSent then s
      else
        var key := IncrKey(s.key, s.now);
        var reborn := !Live(s.key, s.now);
        var t := s.(key := Some(key), starts := if reborn then s.starts + [s.now] else s.starts);
        if fault == ReplyLost then t
        else if key.count == 1 then t.(waiting := t.waiting[pid := Waiting(s.now)])
        else Decide(t, limit, key.count, Pass(s.now, Current(t.starts), false))
    case Expire(pid, fault) =>
      if pid !in s.waiting then s
      else
        var t := s.(waiting := s.waiting - {pid});
        var u := if fault == NotSent then t else t.(key := ExpireKey(s.key, s.now, window));
        if fault == Works then Decide(u, limit, 1, Pass(s.waiting[pid].at, Current(s.starts), true)) else u
  }

  function Run(s: State, limit: nat, window: nat, steps: seq<Step>): State {
    if steps == [] then s
    else Apply(Run(s, limit, window, steps[..|steps| - 1]), limit, window, steps[|steps| - 1])
  }

  lemma TickLeaves(s: State, limit: nat, window: nat, dt: nat)
    ensures var t := Apply(s, limit, window, Tick(dt)); t.passes == s.passes && t.waiting == s.waiting
  {
  }

  // An INCR either leaves its process waiting, or decides.
  lemma IncrDecides(s: State, limit: nat, window: nat, pid: nat, fault: Fault)
    requires pid !in s.waiting
    ensures var t := Apply(s, limit, window, Incr(pid, fault));
            && (if pid in t.waiting then t.waiting.Keys == s.waiting.Keys + {pid} && t.passes == s.passes
                else t.waiting == s.waiting)
            && GrowsByOne(s, t) && (fault != Works ==> t.passes == s.passes)
  {
  }

  lemma ExpireDecides(s: State, limit: nat, window: nat, pid: nat, fault: Fault)
    requires pid in s.waiting
    ensures var t := Apply(s, limit, window, Expire(pid, fault));
            t.waiting == s.waiting - {pid} && GrowsByOne(s, t) && (fault != Works ==> t.passes == s.passes)
  {
  }

  predicate GrowsByOne(s: State, t: State) {
    t.passes == s.passes || (t.passes != [] && t.passes == s.passes + [t.passes[|t.passes| - 1]])
  }

  // A step taken under the policy its process loaded, which may differ from one process to the next.
  datatype Turn = Turn(step: Step, limit: nat, window: nat)

  function RunEach(s: State, turns: seq<Turn>): State {
    if turns == [] then s
    else
      var turn := turns[|turns| - 1];
      Apply(RunEach(s, turns[..|turns| - 1]), turn.limit, turn.window, turn.step)
  }

  // No policy in use allows more than `limit` requests or a window shorter than `window`.
  predicate Limited(turns: seq<Turn>, limit: nat, window: nat) {
    forall i | 0 <= i < |turns| && !turns[i].step.Tick? :: turns[i].limit <= limit && window <= turns[i].window
  }

  /** With nothing in between, the protocol's two steps leave the key `CheckRateLimit` leaves, and let
      the request through exactly when it answers `Allowed`. */
  lemma CheckIsTwoSteps(s: State, limit: nat, window: nat, pid: nat, incr: Fault, expire: Fault)
    requires pid !in s.waiting && (s.key.Some? ==> s.key.value.count >= 1)
    ensures var t := Apply(Apply(s, limit, window, Incr(pid, incr)), limit, window, Expire(pid, expire));
            && t.key == KeyAfter(s.key, s.now, window, incr, expire)
            && t.waiting == s.waiting && s.passes <= t.passes
            && |t.passes| == |s.passes| + (if Decided(s.key, s.now, limit, incr, expire) == Allowed then 1 else 0)
  {
    var a := Apply(s, limit, window, Incr(pid, incr));
    if !Live(s.key, s.now) && incr == Works {
      assert pid in a.waiting && a.waiting - {pid} == s.waiting;
    }
  }

  // ----- Counting -----

  function Count(passes: seq<Pass>, which: Pass -> bool): nat {
    if passes == [] then 0
    else Count(passes[..|passes| - 1], which) + (if which(passes[|passes| - 1]) then 1 else 0)
  }

  function First(epoch: nat): Pass -> bool { (p: Pass) => p.epoch == epoch && p.first }

  function Later(epoch: nat): Pass -> bool { (p: Pass) => p.epoch == epoch && !p.first }

  function InEpochs(from: nat, to: nat): Pass -> bool { (p: Pass) => from <= p.epoch < to }

  // Requests counted in the half-open interval [from, to).
  function Between(from: nat, to: nat): Pass -> bool { (p: Pass) => from <= p.at < to }

  lemma CountAppend(passes: seq<Pass>, p: Pass, which: Pass -> bool)
    ensures Count(passes + [p], which) == Count(passes, which) + (if which(p) then 1 else 0)
  {
    assert (passes + [p])[..|passes|] == passes;
  }

  lemma {:induction false} CountCover(passes: seq<Pass>, f: Pass -> bool, g: Pass -> bool, h: Pass -> bool)
    requires forall i | 0 <= i < |passes| :: f(passes[i]) ==> g(passes[i]) || h(passes[i])
    ensures Count(passes, f) <= Count(passes, g) + Count(passes, h)
  {
    if passes != [] { CountCover(passes[..|passes| - 1], f, g, h); }
  }

  lemma {:induction false} CountNone(passes: seq<Pass>, f: Pass -> bool)
    requires forall i | 0 <= i < |passes| :: !f(passes[i])
    ensures Count(passes, f) == 0
  {
    if passes != [] { CountNone(passes[..|passes| - 1], f); }
  }

  // ----- The invariant -----

  predicate StartsApart(starts: seq<nat>, window: nat) {
    forall e | 0 < e < |starts| :: starts[e - 1] + window <= starts[e]
  }

  // The pass lies in its own lifetime, strictly before the next one begins.
  predicate PassInEpoch(s: State, p: Pass) {
    && p.epoch < |s.starts|
    && s.starts[p.epoch] <= p.at <= s.now
    && (p.first ==> p.at == s.starts[p.epoch])
    && (p.epoch + 1 < |s.starts| ==> p.at < s.starts[p.epoch + 1])
    && (p.epoch + 1 == |s.starts| && s.key.Some? && s.key.value.dead.Some? ==> p.at < s.key.value.dead.value)
  }

  ghost predicate EpochBounded(passes: seq<Pass>, limit: nat, e: nat) {
    && Count(passes, First(e)) <= 1
    && (limit == 0 ==> Count(passes, First(e)) == 0 && Count(passes, Later(e)) == 0)
    && (limit > 0 ==> Count(passes, Later(e)) <= limit - 1)
  }

  ghost predicate AllBounded(passes: seq<Pass>, limit: nat) {
    forall e: nat :: EpochBounded(passes, limit, e)
  }

  // The key's current lifetime: its count covers every later pass, and while it has no TTL at
  // most one process, the one that created it, is on its way to set one.
  ghost predicate KeyInv(s: State, window: nat)
    requires s.key.Some? && s.starts != []
  {
    var e := Current(s.starts);
    && s.key.value.count >= 1
    && s.starts[e] <= s.now
    && (s.key.value.dead.Some? ==> s.starts[e] + window <= s.key.value.dead.value && s.waiting == map[])
    && Count(s.passes, Later(e)) < s.key.value.count
    && (s.waiting != map[] ==> Count(s.passes, First(e)) == 0)
    && (forall p, q | p in s.waiting && q in s.waiting :: p == q)
    && (forall p | p in s.waiting :: s.waiting[p].at == s.starts[e])
  }

  ghost predicate Inv(s: State, limit: nat, window: nat) {
    && (s.key.Some? <==> s.starts != [])
    && StartsApart(s.starts, window)
    && (forall i | 0 <= i < |s.passes| :: PassInEpoch(s, s.passes[i]))
    && AllBounded(s.passes, limit)
    && (s.key.None? ==> s.waiting == map[])
    && (s.key.Some? ==> KeyInv(s, window))
  }

  lemma OnePassCounts(passes: seq<Pass>, pass: Pass, e: nat)
    ensures Count(passes + [pass], First(e))
            == Count(passes, First(e)) + (if e == pass.epoch && pass.first then 1 else 0)
    ensures Count(passes + [pass], Later(e))
            == Count(passes, Later(e)) + (if e == pass.epoch && !pass.first then 1 else 0)
  {
    CountAppend(passes, pass, First(e));
    CountAppend(passes, pass, Later(e));
  }

  lemma OnePassIsBounded(passes: seq<Pass>, limit: nat, pass: Pass)
    requires AllBounded(passes, limit) && limit > 0
    requires pass.first ==> Count(passes, First(pass.epoch)) == 0
    requires !pass.first ==> Count(passes, Later(pass.epoch)) + 1 < limit
    ensures AllBounded(passes + [pass], limit)
  {
    forall e: nat
      ensures EpochBounded(passes + [pass], limit, e)
    {
      OnePassCounts(passes, pass, e);
      assert EpochBounded(passes, limit, e);
    }
  }

  // A request is decided by the limit of its own policy, at most `limit`.
  lemma DecideKeepsInv(s: State, limit: nat, window: nat, own: nat, count: nat, pass: Pass)
    requires Inv(s, limit, window) && own <= limit
    requires s.key.Some? && pass.epoch == Current(s.starts) && PassInEpoch(s, pass)
    requires pass.first ==> count == 1 && s.waiting == map[] && Count(s.passes, First(pass.epoch)) == 0
    requires !pass.first ==> count == s.key.value.count && Count(s.passes, Later(pass.epoch)) + 1 < count
    ensures Inv(Decide(s, own, count, pass), limit, window)
  {
    if count <= own {
      var t := Decide(s, own, count, pass);
      OnePassIsBounded(s.passes, limit, pass);
      OnePassCounts(s.passes, pass, pass.epoch);
      assert KeyInv(t, window);
      forall i | 0 <= i < |t.passes|
        ensures PassInEpoch(t, t.passes[i])
      {
        if i < |s.passes| { assert PassInEpoch(s, s.passes[i]); }
      }
    }
  }

  lemma NewEpochIsEmpty(s: State, limit: nat, window: nat)
    requires Inv(s, limit, window)
    ensures Count(s.passes, First(|s.starts|)) == 0 && Count(s.passes, Later(|s.starts|)) == 0
  {
    CountNone(s.passes, First(|s.starts|));
    CountNone(s.passes, Later(|s.starts|));
  }

  // A new lifetime begins: the key was absent or expired.
  function Reborn(s: State): State {
    s.(key := Some(Key(1, None)), starts := s.starts + [s.now])
  }

  lemma RebornKeepsInv(s: State, limit: nat, window: nat)
    requires Inv(s, limit, window) && window > 0 && !Live(s.key, s.now)
    ensures Inv(Reborn(s), limit, window) && s.waiting == map[]
    ensures Count(s.passes, First(|s.starts|)) == 0 && Count(s.passes, Later(|s.starts|)) == 0
  {
    NewEpochIsEmpty(s, limit, window);
    var t := Reborn(s);
    assert t.starts[Current(t.starts)] == s.now;
    forall i | 0 <= i < |t.passes|
      ensures PassInEpoch(t, t.passes[i])
    {
      assert PassInEpoch(s, s.passes[i]);
    }
  }

  lemma LiveIncrKeepsInv(s: State, limit: nat, window: nat)
    requires Inv(s, limit, window) && Live(s.key, s.now)
    ensures Inv(s.(key := Some(IncrKey(s.key, s.now))), limit, window)
    ensures PassInEpoch(s.(key := Some(IncrKey(s.key, s.now))), Pass(s.now, Current(s.starts), false))
  {
    assert KeyInv(s.(key := Some(IncrKey(s.key, s.now))), window);
  }

  lemma LiveIncrDecides(s: State, limit: nat, window: nat, own: nat, life: nat, pid: nat, fault: Fault)
    requires Inv(s, limit, window) && own <= limit
    requires pid !in s.waiting && fault != NotSent && Live(s.key, s.now)
    ensures Inv(Apply(s, own, life, Incr(pid, fault)), limit, window)
  {
    LiveIncrKeepsInv(s, limit, window);
    var t := s.(key := Some(IncrKey(s.key, s.now)));
    if fault == Works {
      DecideKeepsInv(t, limit, window, own, t.key.value.count, Pass(s.now, Current(t.starts), false));
    }
  }

  // The first request of a lifetime waits for its EXPIRE.
  lemma FirstIncrWaits(s: State, limit: nat, window: nat, pid: nat)
    requires Inv(s, limit, window) && window > 0 && !Live(s.key, s.now)
    ensures Inv(Reborn(s).(waiting := s.waiting[pid := Waiting(s.now)]), limit, window)
  {
    RebornKeepsInv(s, limit, window);
    var t := Reborn(s).(waiting := s.waiting[pid := Waiting(s.now)]);
    assert KeyInv(t, window);
  }

  lemma IncrKeepsInv(s: State, limit: nat, window: nat, own: nat, life: nat, pid: nat, fault: Fault)
    requires Inv(s, limit, window) && window > 0 && own <= limit
    ensures Inv(Apply(s, own, life, Incr(pid, fault)), limit, window)
  {
    if pid !in s.waiting && fault != NotSent {
      if Live(s.key, s.now) {
        LiveIncrDecides(s, limit, window, own, life, pid, fault);
      } else {
        RebornKeepsInv(s, limit, window);
        FirstIncrWaits(s, limit, window, pid);
      }
    }
  }

  lemma ExpireKeepsInv(s: State, limit: nat, window: nat, own: nat, life: nat, pid: nat, fault: Fault)
    requires Inv(s, limit, window) && window > 0 && own <= limit && life >= window
    ensures Inv(Apply(s, own, life, Expire(pid, fault)), limit, window)
  {
    if pid in s.waiting {
      var t := s.(waiting := s.waiting - {pid});
      assert t.waiting == map[];
      var u := if fault == NotSent then t else t.(key := ExpireKey(s.key, s.now, life));
      assert Inv(u, limit, window);
      if fault == Works {
        DecideKeepsInv(u, limit, window, own, 1, Pass(s.waiting[pid].at, Current(s.starts), true));
      }
    }
  }

  lemma StepKeepsInv(s: State, limit: nat, window: nat, own: nat, life: nat, step: Step)
    requires Inv(s, limit, window) && window > 0 && (step.Tick? || (own <= limit && life >= window))
    ensures Inv(Apply(s, own, life, step), limit, window)
  {
    match step
    case Tick(dt) => TickKeepsInv(s, limit, window, dt);
    case Incr(pid, fault) => IncrKeepsInv(s, limit, window, own, life, pid, fault);
    case Expire(pid, fault) => ExpireKeepsInv(s, limit, window, own, life, pid, fault);
  }

  lemma TickKeepsInv(s: State, limit: nat, window: nat, dt: nat)
    requires Inv(s, limit, window)
    ensures Inv(s.(now := s.now + dt), limit, window)
  {
  }

  lemma InitialInv(limit: nat, window: nat)
    ensures Inv(INITIAL, limit, window)
  {
  }

  lemma {:induction false} RunKeepsInv(s: State, limit: nat, window: nat, steps: seq<Step>)
    requires Inv(s, limit, window) && window > 0
    ensures Inv(Run(s, limit, window, steps), limit, window)
    decreases |steps|
  {
    if steps != [] {
      RunKeepsInv(s, limit, window, steps[..|steps| - 1]);
      var before := Run(s, limit, window, steps[..|steps| - 1]);
      StepKeepsInv(before, limit, window, limit, window, steps[|steps| - 1]);
    }
  }

  lemma {:induction false} RunEachKeepsInv(s: State, limit: nat, window: nat, turns: seq<Turn>)
    requires Inv(s, limit, window) && window > 0 && Limited(turns, limit, window)
    ensures Inv(RunEach(s, turns), limit, window)
    decreases |turns|
  {
    if turns != [] {
      var turn := turns[|turns| - 1];
      RunEachKeepsInv(s, limit, window, turns[..|turns| - 1]);
      var before := RunEach(s, turns[..|turns| - 1]);
      StepKeepsInv(before, limit, window, turn.limit, turn.window, turn.step);
    }
  }

  // ----- The bound -----

  /** At most `limit` requests pass in each lifetime of the key, on every interleaving. */
  lemma PerLifetime(limit: nat, window: nat, steps: seq<Step>, e: nat)
    requires window > 0
    ensures Count(Run(INITIAL, limit, window, steps).passes, InEpochs(e, e + 1)) <= limit
  {
    RunKeepsInv(INITIAL, limit, window, steps);
    var s := Run(INITIAL, limit, window, steps);
    assert EpochBounded(s.passes, limit, e);
    CountCover(s.passes, InEpochs(e, e + 1), First(e), Later(e));
  }

  lemma {:induction false} EpochsBound(s: State, limit: nat, window: nat, from: nat, n: nat)
    requires Inv(s, limit, window)
    ensures Count(s.passes, InEpochs(from, from + n)) <= n * limit
    decreases n
  {
    if n == 0 {
      CountNone(s.passes, InEpochs(from, from));
    } else {
      var e := from + n - 1;
      EpochsBound(s, limit, window, from, n - 1);
      assert EpochBounded(s.passes, limit, e);
      CountCover(s.passes, InEpochs(e, e + 1), First(e), Later(e));
      CountCover(s.passes, InEpochs(from, from + n), InEpochs(from, e), InEpochs(e, e + 1));
      assert n * limit == (n - 1) * limit + limit;
    }
  }

  lemma {:induction false} StartsSpread(starts: seq<nat>, window: nat, m: nat, j: nat)
    requires StartsApart(starts, window) && m + j < |starts|
    ensures starts[m] + j * window <= starts[m + j]
    decreases j
  {
    if j > 0 {
      StartsSpread(starts, window, m, j - 1);
      assert j * window == (j - 1) * window + window;
    }
  }

  // The least lifetime with a pass in the interval.
  lemma {:induction false} LeastEpoch(passes: seq<Pass>, which: Pass -> bool) returns (i: nat)
    requires Count(passes, which) > 0
    ensures i < |passes| && which(passes[i])
    ensures forall j | 0 <= j < |passes| && which(passes[j]) :: passes[i].epoch <= passes[j].epoch
  {
    var init, last := passes[..|passes| - 1], passes[|passes| - 1];
    if Count(init, which) == 0 {
      i := |passes| - 1;
      if j :| 0 <= j < |init| && which(init[j]) { CountPositive(init, which, j); }
    } else {
      i := LeastEpoch(init, which);
      if which(last) && last.epoch < init[i].epoch { i := |passes| - 1; }
    }
  }

  lemma {:induction false} CountPositive(passes: seq<Pass>, which: Pass -> bool, j: nat)
    requires j < |passes| && which(passes[j])
    ensures Count(passes, which) > 0
  {
    if j < |passes| - 1 { CountPositive(passes[..|passes| - 1], which, j); }
  }

  lemma {:induction false} StartsIncrease(starts: seq<nat>, window: nat, a: nat, b: nat)
    requires StartsApart(starts, window) && a <= b < |starts|
    ensures starts[a] <= starts[b]
    decreases b
  {
    if a < b { StartsIncrease(starts, window, a, b - 1); }
  }

  // `length` is k windows long and starts at t; m is the least lifetime it touches. It reaches
  // lifetime m + k at most, and not even that one if lifetime m began inside the interval.
  lemma SpanTouches(s: State, limit: nat, window: nat, t: nat, k: nat, length: nat, m: nat, p: Pass)
    requires Inv(s, limit, window) && length == k * window
    requires PassInEpoch(s, p) && m <= p.epoch && Between(t, t + length)(p)
    requires m < |s.starts| && (m + 1 < |s.starts| ==> t < s.starts[m + 1])
    ensures p.epoch <= m + k && (t <= s.starts[m] ==> p.epoch < m + k)
  {
    if p.epoch > m + k {
      StartsSpread(s.starts, window, m + 1, k);
      StartsIncrease(s.starts, window, m + 1 + k, p.epoch);
    }
    if p.epoch >= m + k {
      StartsSpread(s.starts, window, m, k);
      StartsIncrease(s.starts, window, m + k, p.epoch);
    }
  }

  // Every pass of the interval lies in lifetimes m .. m + k, and in m .. m + k - 1 if lifetime m
  // began inside the interval; otherwise lifetime m contributes no first pass.
  ghost predicate Touches(s: State, span: Pass -> bool, t: nat, k: nat, m: nat) {
    && m < |s.starts|
    && forall j | 0 <= j < |s.passes| && span(s.passes[j]) ::
         && m <= s.passes[j].epoch <= m + k
         && (t <= s.starts[m] ==> s.passes[j].epoch < m + k)
         && (s.starts[m] < t && s.passes[j].epoch == m ==> !s.passes[j].first)
  }

  lemma SpanIsTouched(s: State, limit: nat, window: nat, t: nat, k: nat, length: nat) returns (m: nat)
    requires Inv(s, limit, window) && length == k * window
    requires Count(s.passes, Between(t, t + length)) > 0
    ensures Touches(s, Between(t, t + length), t, k, m)
  {
    var span := Between(t, t + length);
    var i := LeastEpoch(s.passes, span);
    m := s.passes[i].epoch;
    assert PassInEpoch(s, s.passes[i]);
    forall j | 0 <= j < |s.passes| && span(s.passes[j])
      ensures m <= s.passes[j].epoch <= m + k && (t <= s.starts[m] ==> s.passes[j].epoch < m + k)
      ensures s.starts[m] < t && s.passes[j].epoch == m ==> !s.passes[j].first
    {
      assert PassInEpoch(s, s.passes[j]);
      SpanTouches(s, limit, window, t, k, length, m, s.passes[j]);
    }
  }

  lemma TouchedBound(s: State, limit: nat, window: nat, span: Pass -> bool, t: nat, k: nat, m: nat)
    requires Inv(s, limit, window) && Touches(s, span, t, k, m)
    ensures Count(s.passes, span) <= k * limit + (if limit == 0 then 0 else limit - 1)
  {
    assert EpochBounded(s.passes, limit, m);
    if t <= s.starts[m] {
      EpochsBound(s, limit, window, m, k);
      CountCover(s.passes, span, InEpochs(m, m + k), InEpochs(0, 0));
      CountNone(s.passes, InEpochs(0, 0));
    } else {
      EpochsBound(s, limit, window, m + 1, k);
      CountCover(s.passes, span, Later(m), InEpochs(m + 1, m + 1 + k));
    }
  }

  lemma SpanBound(s: State, limit: nat, window: nat, t: nat, k: nat, length: nat)
    requires Inv(s, limit, window) && length == k * window
    ensures Count(s.passes, Between(t, t + length)) <= k * limit + (if limit == 0 then 0 else limit - 1)
  {
    if Count(s.passes, Between(t, t + length)) > 0 {
      var m := SpanIsTouched(s, limit, window, t, k, length);
      TouchedBound(s, limit, window, Between(t, t + length), t, k, m);
    }
  }

  /** Over any interval of k windows at most k * limit + (limit - 1) requests pass, however INCR
      and EXPIRE are delayed, interleaved, fail or lose their replies. For k = 1 that is one less
      than twice the limit. */
  lemma SlidingBound(limit: nat, window: nat, steps: seq<Step>, t: nat, k: nat)
    requires window > 0
    ensures Count(Run(INITIAL, limit, window, steps).passes, Between(t, t + k * window))
            <= k * limit + (if limit == 0 then 0 else limit - 1)
  {
    BoundFor(limit, window, steps, t, k, k * window);
  }

  lemma BoundFor(limit: nat, window: nat, steps: seq<Step>, t: nat, k: nat, length: nat)
    requires window > 0 && length == k * window
    ensures Count(Run(INITIAL, limit, window, steps).passes, Between(t, t + length))
            <= k * limit + (if limit == 0 then 0 else limit - 1)
  {
    InitialInv(limit, window);
    RunKeepsInv(INITIAL, limit, window, steps);
    SpanBound(Run(INITIAL, limit, window, steps), limit, window, t, k, length);
  }

  /** While policies change under the requests, the bound holds for the largest limit and the shortest
      window that any of them was checked against. */
  lemma MixedBound(limit: nat, window: nat, turns: seq<Turn>, t: nat, k: nat)
    requires window > 0 && Limited(turns, limit, window)
    ensures Count(RunEach(INITIAL, turns).passes, Between(t, t + k * window))
            <= k * limit + (if limit == 0 then 0 else limit - 1)
  {
    MixedBoundFor(limit, window, turns, t, k, k * window);
  }

  lemma MixedBoundFor(limit: nat, window: nat, turns: seq<Turn>, t: nat, k: nat, length: nat)
    requires window > 0 && Limited(turns, limit, window) && length == k * window
    ensures Count(RunEach(INITIAL, turns).passes, Between(t, t + length))
            <= k * limit + (if limit == 0 then 0 else limit - 1)
  {
    InitialInv(limit, window);
    RunEachKeepsInv(INITIAL, limit, window, turns);
    SpanBound(RunEach(INITIAL, turns), limit, window, t, k, length);
  }

  // ----- The bound is attained -----

  lemma {:induction false} RunConcat(s: State, limit: nat, window: nat, a: seq<Step>, b: seq<Step>)
    ensures Run(s, limit, window, a + b) == Run(Run(s, limit, window, a), limit, window, b)
    decreases |b|
  {
    if b == [] {
      assert a + b == a;
    } else {
      assert (a + b)[..|a + b| - 1] == a + b[..|b| - 1];
      RunConcat(s, limit, window, a, b[..|b| - 1]);
    }
  }

  // n further calls by one process, with every reply arriving.
  function Burst(n: nat): seq<Step> { seq(n, i => Incr(1, Works)) }

  function Copies(p: Pass, n: nat): seq<Pass> { seq(n, i => p) }

  function Counted(s: State, n: nat): State
    requires s.key.Some?
  {
    s.(key := Some(s.key.value.(count := s.key.value.count + n)),
       passes := s.passes + Copies(Pass(s.now, Current(s.starts), false), n))
  }

  lemma OneMorePass(s: State, limit: nat, window: nat)
    requires Live(s.key, s.now) && s.key.value.count >= 1 && s.waiting == map[] && s.key.value.count < limit
    ensures Apply(s, limit, window, Incr(1, Works)) == Counted(s, 1)
  {
    assert Copies(Pass(s.now, Current(s.starts), false), 1) == [Pass(s.now, Current(s.starts), false)];
  }

  lemma CountedTwice(s: State, n: nat)
    requires s.key.Some?
    ensures Counted(Counted(s, n), 1) == Counted(s, n + 1)
  {
    var p := Pass(s.now, Current(s.starts), false);
    assert s.passes + Copies(p, n) + Copies(p, 1) == s.passes + Copies(p, n + 1);
  }

  lemma {:induction false} BurstPasses(s: State, limit: nat, window: nat, n: nat)
    requires Live(s.key, s.now) && s.key.value.count >= 1 && s.waiting == map[] && s.key.value.count + n <= limit
    ensures Run(s, limit, window, Burst(n)) == Counted(s, n)
    decreases n
  {
    if n == 0 {
      assert Copies(Pass(s.now, Current(s.starts), false), 0) == [];
    } else {
      assert Burst(n)[..n - 1] == Burst(n - 1);
      BurstPasses(s, limit, window, n - 1);
      OneMorePass(Counted(s, n - 1), limit, window);
      CountedTwice(s, n - 1);
    }
  }

  lemma {:induction false} CountConcat(a: seq<Pass>, b: seq<Pass>, which: Pass -> bool)
    ensures Count(a + b, which) == Count(a, which) + Count(b, which)
    decreases |b|
  {
    if b == [] {
      assert a + b == a;
    } else {
      assert (a + b)[..|a + b| - 1] == a + b[..|b| - 1];
      CountConcat(a, b[..|b| - 1], which);
    }
  }

  lemma {:induction false} CountCopies(p: Pass, n: nat, which: Pass -> bool)
    requires which(p)
    ensures Count(Copies(p, n), which) == n
  {
    if n > 0 {
      assert Copies(p, n)[..n - 1] == Copies(p, n - 1);
      CountCopies(p, n - 1, which);
    }
  }

  lemma RunSnoc(s: State, limit: nat, window: nat, steps: seq<Step>, last: Step)
    ensures Run(s, limit, window, steps + [last]) == Apply(Run(s, limit, window, steps), limit, window, last)
  {
    assert (steps + [last])[..|steps|] == steps;
  }

  lemma RunTwo(s: State, limit: nat, window: nat, a: Step, b: Step)
    ensures Run(s, limit, window, [a, b]) == Apply(Apply(s, limit, window, a), limit, window, b)
  {
    RunSnoc(s, limit, window, [], a);
    RunSnoc(s, limit, window, [a], b);
    assert [] + [a] == [a] && [a] + [b] == [a, b];
  }

  lemma RunTick(s: State, limit: nat, window: nat, steps: seq<Step>, dt: nat)
    ensures var t := Run(s, limit, window, steps);
            Run(s, limit, window, steps + [Tick(dt)]) == t.(now := t.now + dt)
  {
    RunSnoc(s, limit, window, steps, Tick(dt));
  }

  // A lifetime opens with one request that sets its TTL at once.
  function Opening(): seq<Step> { [Incr(0, Works), Expire(0, Works)] }

  lemma OpeningPasses(s: State, limit: nat, window: nat)
    requires limit >= 1 && window > 0 && s.waiting == map[] && !Live(s.key, s.now)
    ensures Run(s, limit, window, Opening()) ==
            State(s.now, Some(Key(1, Some(s.now + window))), map[],
                  s.passes + [Pass(s.now, |s.starts|, true)], s.starts + [s.now])
  {
    RunTwo(s, limit, window, Incr(0, Works), Expire(0, Works));
    var t := Apply(s, limit, window, Incr(0, Works));
    assert t.waiting == map[0 := Waiting(s.now)];
    assert t.waiting - {0} == map[];
  }

  // d after the opening, n more requests follow.
  function Lifetime(d: nat, n: nat): seq<Step> { Opening() + [Tick(d)] + Burst(n) }

  lemma BurstFrom(s: State, limit: nat, window: nat, n: nat)
    requires Live(s.key, s.now) && s.key.value.count >= 1 && s.waiting == map[] && s.key.value.count + n <= limit
    ensures Run(s, limit, window, Burst(n)) ==
            State(s.now, Some(Key(s.key.value.count + n, s.key.value.dead)), map[],
                  s.passes + Copies(Pass(s.now, Current(s.starts), false), n), s.starts)
  {
    BurstPasses(s, limit, window, n);
  }

  lemma ThenBurst(s: State, limit: nat, window: nat, before: seq<Step>, u: State, n: nat)
    requires Run(s, limit, window, before) == u && Live(u.key, u.now) && u.waiting == map[]
    requires u.key.value.count >= 1 && u.key.value.count + n <= limit
    ensures Run(s, limit, window, before + Burst(n)) ==
            State(u.now, Some(Key(u.key.value.count + n, u.key.value.dead)), map[],
                  u.passes + Copies(Pass(u.now, Current(u.starts), false), n), u.starts)
  {
    RunConcat(s, limit, window, before, Burst(n));
    BurstFrom(u, limit, window, n);
  }

  lemma TickThenBurst(s: State, limit: nat, window: nat, steps: seq<Step>, t: State, d: nat, n: nat)
    requires Run(s, limit, window, steps) == t && Live(t.key, t.now + d) && t.waiting == map[]
    requires t.key.value.count >= 1 && t.key.value.count + n <= limit
    ensures Run(s, limit, window, steps + [Tick(d)] + Burst(n)) ==
            State(t.now + d, Some(Key(t.key.value.count + n, t.key.value.dead)), map[],
                  t.passes + Copies(Pass(t.now + d, Current(t.starts), false), n), t.starts)
  {
    RunTick(s, limit, window, steps, d);
    ThenBurst(s, limit, window, steps + [Tick(d)], t.(now := t.now + d), n);
  }

  lemma LifetimePasses(s: State, limit: nat, window: nat, d: nat, n: nat)
    requires limit == n + 1 && d < window && s.waiting == map[] && !Live(s.key, s.now)
    ensures Run(s, limit, window, Lifetime(d, n)) ==
            State(s.now + d, Some(Key(n + 1, Some(s.now + window))), map[],
                  s.passes + [Pass(s.now, |s.starts|, true)] + Copies(Pass(s.now + d, |s.starts|, false), n),
                  s.starts + [s.now])
  {
    OpeningPasses(s, limit, window);
    var t := State(s.now, Some(Key(1, Some(s.now + window))), map[],
                   s.passes + [Pass(s.now, |s.starts|, true)], s.starts + [s.now]);
    TickThenBurst(s, limit, window, Opening(), t, d, n);
  }

  lemma FirstLifetime(s: State, limit: nat, window: nat, n: nat, early: seq<Step>)
    requires limit == n + 1 && window >= 2 && early == Lifetime(window - 1, n)
    requires s.now == 0 && s.key == None && s.waiting == map[] && s.passes == [] && s.starts == []
    ensures Run(s, limit, window, early + [Tick(1)]) ==
            State(window, Some(Key(n + 1, Some(window))), map[],
                  [Pass(0, 0, true)] + Copies(Pass(window - 1, 0, false), n), [0])
  {
    LifetimePasses(s, limit, window, window - 1, n);
    RunTick(s, limit, window, early, 1);
    assert s.passes + [Pass(0, 0, true)] == [Pass(0, 0, true)];
  }

  lemma TwoLifetimes(limit: nat, window: nat, n: nat, early: seq<Step>, late: seq<Step>)
    requires limit == n + 1 && window >= 2
    requires early == Lifetime(window - 1, n) && late == Lifetime(0, n)
    ensures Run(INITIAL, limit, window, early + [Tick(1)] + late).passes ==
            [Pass(0, 0, true)] + Copies(Pass(window - 1, 0, false), n)
            + [Pass(window, 1, true)] + Copies(Pass(window, 1, false), n)
  {
    FirstLifetime(INITIAL, limit, window, n, early);
    var s := State(window, Some(Key(n + 1, Some(window))), map[],
                   [Pass(0, 0, true)] + Copies(Pass(window - 1, 0, false), n), [0]);
    LifetimePasses(s, limit, window, 0, n);
    RunConcat(INITIAL, limit, window, early + [Tick(1)], late);
  }

  /** For every limit and every window of at least two ticks some interleaving lets 2 * limit - 1
      requests through within one window, so the bound is exact. */
  lemma BoundAttained(limit: nat, window: nat) returns (steps: seq<Step>, t: nat)
    requires limit >= 1 && window >= 2
    ensures Count(Run(INITIAL, limit, window, steps).passes, Between(t, t + window)) == 2 * limit - 1
  {
    t := window - 1;
    var n := limit - 1;
    var early, late := Lifetime(window - 1, n), Lifetime(0, n);
    steps := early + [Tick(1)] + late;
    TwoLifetimes(limit, window, n, early, late);
    TwoLifetimesCount(window, n);
  }

  lemma TwoLifetimesCount(window: nat, n: nat)
    requires window >= 2
    ensures Count([Pass(0, 0, true)] + Copies(Pass(window - 1, 0, false), n)
                  + [Pass(window, 1, true)] + Copies(Pass(window, 1, false), n),
                  Between(window - 1, window - 1 + window)) == 2 * n + 1
  {
    var span := Between(window - 1, window - 1 + window);
    var p, q := Pass(window - 1, 0, false), Pass(window, 1, false);
    var a := [Pass(0, 0, true)];
    CountNone(a, span);
    CountConcat(a, Copies(p, n), span);
    CountAppend(a + Copies(p, n), Pass(window, 1, true), span);
    CountConcat(a + Copies(p, n) + [Pass(window, 1, true)], Copies(q, n), span);
    CountCopies(p, n, span);
    CountCopies(q, n, span);
  }

  // ----- When the limiter recovers -----

  // The key never gets a TTL: it has none, and no process is on its way to set one.
  predicate Stuck(s: State) {
    s.key.Some? && s.key.value.dead.None? && s.waiting == map[]
  }

  // Some continuation begins another lifetime of the key.
  ghost predicate Recovers(s: State, limit: nat, window: nat) {
    exists more :: |Run(s, limit, window, more).starts| > |s.starts|
  }

  lemma {:induction false} StuckForever(s: State, limit: nat, window: nat, steps: seq<Step>)
    requires Stuck(s) && s.key.value.count >= 1
    ensures var t := Run(s, limit, window, steps); Stuck(t) && t.starts == s.starts && t.key.value.count >= 1
    decreases |steps|
  {
    if steps != [] { StuckForever(s, limit, window, steps[..|steps| - 1]); }
  }

  // A key that has expired, or is absent, begins a lifetime with the next request.
  lemma DeadKeyRestarts(s: State, limit: nat, window: nat, pid: nat)
    requires !Live(s.key, s.now) && pid !in s.waiting
    ensures |Run(s, limit, window, [Incr(pid, Works)]).starts| > |s.starts|
  {
    assert [Incr(pid, Works)][..0] == [];
  }

  // Once the TTL has run out, one request is enough.
  lemma TtlRestarts(s: State, limit: nat, window: nat, pid: nat, dt: nat)
    requires s.key.Some? && s.key.value.dead.Some? && s.key.value.dead.value <= s.now + dt && pid !in s.waiting
    ensures |Run(s, limit, window, [Tick(dt)] + [Incr(pid, Works)]).starts| > |s.starts|
  {
    assert [Tick(dt)][..0] == [];
    RunConcat(s, limit, window, [Tick(dt)], [Incr(pid, Works)]);
    DeadKeyRestarts(s.(now := s.now + dt), limit, window, pid);
  }

  // A waiting process sets the TTL, whatever became of its request.
  lemma WaitingRestarts(s: State, limit: nat, window: nat, pid: nat) returns (more: seq<Step>)
    requires Inv(s, limit, window) && pid in s.waiting
    ensures |Run(s, limit, window, more).starts| > |s.starts|
  {
    var t := Apply(s, limit, window, Expire(pid, Works));
    assert [Expire(pid, Works)][..0] == [];
    assert t.key.Some? && t.key.value.dead == Some(s.now + window) && pid !in t.waiting;
    more := [Expire(pid, Works)] + ([Tick(window)] + [Incr(pid, Works)]);
    TtlRestarts(t, limit, window, pid, window);
    RunConcat(s, limit, window, [Expire(pid, Works)], [Tick(window)] + [Incr(pid, Works)]);
  }

  lemma UnstuckRecovers(s: State, limit: nat, window: nat)
    requires Inv(s, limit, window) && !Stuck(s)
    ensures Recovers(s, limit, window)
  {
    if s.key.None? {
      DeadKeyRestarts(s, limit, window, 0);
    } else if s.waiting != map[] {
      var pid :| pid in s.waiting;
      var more := WaitingRestarts(s, limit, window, pid);
    } else {
      var dead := s.key.value.dead.value;
      var dt := if dead > s.now then dead - s.now else 0;
      TtlRestarts(s, limit, window, 0, dt);
      assert |Run(s, limit, window, [Tick(dt)] + [Incr(0, Works)]).starts| > |s.starts|;
    }
  }

  /** In every reachable state the key can begin another lifetime if and only if it is absent, has a
      TTL, or some process that saw the count 1 has yet to send its EXPIRE. */
  lemma RecoversExactly(limit: nat, window: nat, steps: seq<Step>)
    requires window > 0
    ensures var s := Run(INITIAL, limit, window, steps);
            Recovers(s, limit, window) <==> s.key.None? || s.key.value.dead.Some? || s.waiting != map[]
  {
    InitialInv(limit, window);
    RunKeepsInv(INITIAL, limit, window, steps);
    var s := Run(INITIAL, limit, window, steps);
    if Stuck(s) {
      forall more
        ensures |Run(s, limit, window, more).starts| <= |s.starts|
      {
        StuckForever(s, limit, window, more);
      }
    } else {
      UnstuckRecovers(s, limit, window);
    }
  }

  // The passes of the last lifetime, which are all those from `from` on.
  lemma {:induction false} PassesSince(passes: seq<Pass>, from: nat, e: nat)
    requires from <= |passes| && forall i | from <= i < |passes| :: passes[i].epoch == e
    ensures |passes| - from <= Count(passes, InEpochs(e, e + 1))
    decreases |passes|
  {
    if from < |passes| { PassesSince(passes[..|passes| - 1], from, e); }
  }

  lemma {:induction false} PassesStayInEpoch(s: State, limit: nat, window: nat, more: seq<Step>)
    requires Stuck(s) && s.key.value.count >= 1 && s.starts != []
    ensures var t := Run(s, limit, window, more);
            && |s.passes| <= |t.passes|
            && forall i | |s.passes| <= i < |t.passes| :: t.passes[i].epoch == Current(s.starts)
    decreases |more|
  {
    if more != [] {
      PassesStayInEpoch(s, limit, window, more[..|more| - 1]);
      StuckForever(s, limit, window, more[..|more| - 1]);
    }
  }

  /** From then on nobody gets a fresh allowance: in all that follows, for ever, at most `limit` more
      requests are let through. */
  lemma StuckBlocksForever(limit: nat, window: nat, steps: seq<Step>, more: seq<Step>)
    requires window > 0 && Stuck(Run(INITIAL, limit, window, steps))
    ensures |Run(INITIAL, limit, window, steps + more).passes| - |Run(INITIAL, limit, window, steps).passes| <= limit
  {
    InitialInv(limit, window);
    RunKeepsInv(INITIAL, limit, window, steps);
    var s := Run(INITIAL, limit, window, steps);
    RunConcat(INITIAL, limit, window, steps, more);
    PassesStayInEpoch(s, limit, window, more);
    PerLifetime(limit, window, steps + more, Current(s.starts));
    PassesSince(Run(INITIAL, limit, window, steps + more).passes, |s.passes|, Current(s.starts));
  }

  /** Two ways into that state: the EXPIRE of a lifetime's first request is never sent, or its INCR
      takes effect but the reply is lost. */
  lemma TwoWaysToGetStuck(limit: nat, window: nat)
    ensures Stuck(Run(INITIAL, limit, window, [Incr(0, Works), Expire(0, NotSent)]))
    ensures Stuck(Run(INITIAL, limit, window, [Incr(0, ReplyLost)]))
  {
    RunTwo(INITIAL, limit, window, Incr(0, Works), Expire(0, NotSent));
    var t := Apply(INITIAL, limit, window, Incr(0, Works));
    assert t.waiting - {0} == map[];
    assert [Incr(0, ReplyLost)][..0] == [];
  }
}
