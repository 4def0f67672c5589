/** The scheduler worker on one schedule: polls that queue a task while the schedule is due, tasks that
    begin an attempt later without looking again, and commits that write the next due time. `next` is
    the schedule's next-run function; times are microseconds. */
module Dispatch {

  const HOUR: nat := 3_600_000_000

  // What every accepted schedule's next-run function does.
  ghost predicate Schedule(next: nat -> nat) {
    && (forall t: nat :: t < next(t))
    && (forall a: nat, b: nat | a <= b :: next(a) <= next(b))
    && (forall a: nat, b: nat | next(a) <= b :: next(a) + HOUR <= next(b))
  }

  // A task waits for its turn, or has begun the attempt of that number and has yet to commit.
  datatype Task = Queued | Begun(number: nat)

  // `attempts` are the instants tasks began at, after the one the first due time was computed from;
  // `due` was computed from the attempt numbered `written`.
  datatype State = State(now: nat, due: nat, tasks: map<nat, Task>, attempts: seq<nat>, written: nat)

  // A task that finds its campaign inactive skips, begin and commit in one; one that finds the schedule
  // disabled or invalid, or the campaign gone, is dropped. One that dies after its begin never commits.
  datatype Step =
    | Tick(dt: nat)
    | Poll(pid: nat)
    | Begin(pid: nat)
    | Skip(pid: nat)
    | Drop(pid: nat)
    | Commit(pid: nat)

  function Initial(next: nat -> nat, base: nat, now: nat): State {
    State(now, next(base), map[], [base], 0)
  }

  predicate Waits(s: State, pid: nat) { pid in s.tasks && s.tasks[pid].Queued? }

  predicate Runs(s: State, pid: nat) {
    pid in s.tasks && s.tasks[pid].Begun? && s.tasks[pid].number < |s.attempts|
  }

  function Apply(next: nat -> nat, s: State, step: Step): State {
    match step
    case Tick(dt) => s.(now := s.now + dt)
    case Poll(pid) => if pid !in s.tasks && s.due <= s.now then s.(tasks := s.tasks[pid := Queued]) else s
    case Begin(pid) =>
      if Waits(s, pid) then s.(tasks := s.tasks[pid := Begun(|s.attempts|)], attempts := s.attempts + [s.now]) else s
    case Skip(pid) =>
      if Waits(s, pid) then
        s.(tasks := s.tasks - {pid}, attempts := s.attempts + [s.now], written := |s.attempts|, due := next(s.now))
      else s
    case Drop(pid) => if Waits(s, pid) then s.(tasks := s.tasks - {pid}) else s
    case Commit(pid) =>
      if Runs(s, pid) then
        var k := s.tasks[pid].number;
        s.(tasks := s.tasks - {pid}, written := k, due := next(s.attempts[k]))
      else s
  }

  // A skip is a begin and a commit with nothing in between.
  lemma SkipIsTwoSteps(next: nat -> nat, s: State, pid: nat)
    ensures Waits(s, pid) ==>
              Apply(next, s, Skip(pid)) == Apply(next, Apply(next, s, Begin(pid)), Commit(pid))
    ensures !Waits(s, pid) ==> Apply(next, s, Skip(pid)) == s
  {
    if Waits(s, pid) {
      var t := Apply(next, s, Begin(pid));
      assert Runs(t, pid) && t.attempts[|s.attempts|] == s.now && t.tasks - {pid} == s.tasks - {pid};
    }
  }

  function Run(next: nat -> nat, s: State, steps: seq<Step>): State {
    if steps == [] then s else Apply(next, Run(next, s, steps[..|steps| - 1]), steps[|steps| - 1])
  }

  function Last(s: State): nat
    requires s.attempts != []
  {
    s.attempts[|s.attempts| - 1]
  }

  // ----- What should hold, and what a task would have to look at -----

  // An attempt comes no earlier than the schedule's next run after the attempt before it, and the due
  // time never moves back.
  predicate InTurn(next: nat -> nat, s: State, t: State) {
    && s.due <= t.due
    && (|t.attempts| > |s.attempts| > 0 ==> next(Last(s)) <= Last(t))
  }

  predicate AllInTurn(next: nat -> nat, s: State, steps: seq<Step>) {
    steps != [] ==>
      && AllInTurn(next, s, steps[..|steps| - 1])
      && InTurn(next, Run(next, s, steps[..|steps| - 1]), Run(next, s, steps))
  }

  // The row is still due, and every attempt that has yet to commit began a whole period ago.
  predicate StillDue(next: nat -> nat, s: State) {
    && s.due <= s.now
    && (forall pid | pid in s.tasks && Runs(s, pid) :: next(s.attempts[s.tasks[pid].number]) <= s.now)
  }

  // No later attempt has committed.
  predicate NotOvertaken(s: State, pid: nat) {
    Runs(s, pid) ==> s.written < s.tasks[pid].number
  }

  // The two looks the engine does not take.
  predicate Looks(next: nat -> nat, s: State, step: Step) {
    match step
    case Begin(pid) => Waits(s, pid) ==> StillDue(next, s)
    case Skip(pid) => Waits(s, pid) ==> StillDue(next, s)
    case Commit(pid) => NotOvertaken(s, pid)
    case _ => true
  }

  predicate AllLook(next: nat -> nat, s: State, steps: seq<Step>) {
    steps != [] ==>
      && AllLook(next, s, steps[..|steps| - 1])
      && Looks(next, Run(next, s, steps[..|steps| - 1]), steps[|steps| - 1])
  }

  // ----- Why they are the same -----

  predicate Separated(next: nat -> nat, attempts: seq<nat>) {
    forall k | 0 < k < |attempts| :: next(attempts[k - 1]) <= attempts[k]
  }

  ghost predicate Inv(next: nat -> nat, s: State) {
    && s.written < |s.attempts|
    && s.due == next(s.attempts[s.written])
    && Separated(next, s.attempts)
    && (forall pid | pid in s.tasks && s.tasks[pid].Begun? ::
          s.tasks[pid].number < |s.attempts| && s.tasks[pid].number != s.written)
    && (forall p, q | Runs(s, p) && Runs(s, q) && s.tasks[p].number == s.tasks[q].number :: p == q)
    && (s.written == |s.attempts| - 1 || exists pid :: Runs(s, pid) && s.tasks[pid].number == |s.attempts| - 1)
  }

  lemma {:induction false} AttemptsIncrease(next: nat -> nat, attempts: seq<nat>, i: nat, j: nat)
    requires Schedule(next) && Separated(next, attempts) && i < j < |attempts|
    ensures next(attempts[i]) <= attempts[j]
    decreases j
  {
    if i < j - 1 { AttemptsIncrease(next, attempts, i, j - 1); }
    assert next(attempts[j - 1]) <= attempts[j];
  }

  // A task may begin exactly when it comes in turn.
  lemma BeginsInTurn(next: nat -> nat, s: State)
    requires Schedule(next) && Inv(next, s)
    ensures StillDue(next, s) <==> next(Last(s)) <= s.now
  {
    var last := |s.attempts| - 1;
    if next(Last(s)) <= s.now {
      forall k | 0 <= k < last
        ensures next(s.attempts[k]) <= s.now
      {
        AttemptsIncrease(next, s.attempts, k, last);
      }
    }
  }

  // A commit moves the due time back exactly when a later attempt has committed.
  lemma CommitsInTurn(next: nat -> nat, s: State, pid: nat)
    requires Schedule(next) && Inv(next, s) && Runs(s, pid)
    ensures NotOvertaken(s, pid) <==> s.due <= next(s.attempts[s.tasks[pid].number])
  {
    var k := s.tasks[pid].number;
    if s.written < k {
      AttemptsIncrease(next, s.attempts, s.written, k);
    } else {
      AttemptsIncrease(next, s.attempts, k, s.written);
    }
  }

  lemma StepInTurnExactly(next: nat -> nat, s: State, step: Step)
    requires Schedule(next) && Inv(next, s)
    ensures Looks(next, s, step) <==> InTurn(next, s, Apply(next, s, step))
  {
    BeginsInTurn(next, s);
    if step.Skip? && Waits(s, step.pid) {
      AttemptBefore(next, s, s.written);
    }
    if step.Commit? && Runs(s, step.pid) {
      CommitsInTurn(next, s, step.pid);
    }
  }

  lemma AttemptBefore(next: nat -> nat, s: State, k: nat)
    requires Schedule(next) && Inv(next, s) && k < |s.attempts|
    ensures s.attempts[k] <= Last(s)
  {
    if k < |s.attempts| - 1 { AttemptsIncrease(next, s.attempts, k, |s.attempts| - 1); }
  }

  lemma BeginKeepsInv(next: nat -> nat, s: State, pid: nat)
    requires Schedule(next) && Inv(next, s) && Waits(s, pid) && next(Last(s)) <= s.now
    ensures Inv(next, Apply(next, s, Begin(pid)))
  {
    var t := Apply(next, s, Begin(pid));
    assert Runs(t, pid) && t.tasks[pid].number == |t.attempts| - 1;
    assert forall q | q != pid :: Runs(t, q) <==> Runs(s, q);
  }

  lemma CommitKeepsInv(next: nat -> nat, s: State, pid: nat)
    requires Schedule(next) && Inv(next, s) && Runs(s, pid) && NotOvertaken(s, pid)
    ensures Inv(next, Apply(next, s, Commit(pid)))
  {
    var t := Apply(next, s, Commit(pid));
    var last := |s.attempts| - 1;
    assert forall q | Runs(t, q) :: Runs(s, q);
    if s.tasks[pid].number != last {
      var q :| Runs(s, q) && s.tasks[q].number == last;
      assert Runs(t, q);
    }
  }

  lemma DropKeepsInv(next: nat -> nat, s: State, pid: nat)
    requires Inv(next, s) && Waits(s, pid)
    ensures Inv(next, Apply(next, s, Drop(pid)))
  {
    var t := Apply(next, s, Drop(pid));
    assert forall q :: Runs(t, q) <==> Runs(s, q);
  }

  lemma SkipKeepsInv(next: nat -> nat, s: State, pid: nat)
    requires Schedule(next) && Inv(next, s) && Waits(s, pid) && next(Last(s)) <= s.now
    ensures Inv(next, Apply(next, s, Skip(pid)))
  {
    var t := Apply(next, s, Skip(pid));
    assert forall q :: Runs(t, q) <==> Runs(s, q);
  }

  lemma TickKeepsInv(next: nat -> nat, s: State, dt: nat)
    requires Inv(next, s)
    ensures Inv(next, Apply(next, s, Tick(dt)))
  {
    assert forall q :: Runs(s.(now := s.now + dt), q) <==> Runs(s, q);
  }

  lemma PollKeepsInv(next: nat -> nat, s: State, pid: nat)
    requires Inv(next, s)
    ensures Inv(next, Apply(next, s, Poll(pid)))
  {
    var t := Apply(next, s, Poll(pid));
    assert forall q :: Runs(t, q) <==> Runs(s, q);
  }

  lemma StepKeepsInv(next: nat -> nat, s: State, step: Step)
    requires Schedule(next) && Inv(next, s) && Looks(next, s, step)
    ensures Inv(next, Apply(next, s, step))
  {
    BeginsInTurn(next, s);
    match step
    case Tick(dt) => TickKeepsInv(next, s, dt);
    case Poll(pid) => PollKeepsInv(next, s, pid);
    case Begin(pid) => if Waits(s, pid) { BeginKeepsInv(next, s, pid); }
    case Skip(pid) => if Waits(s, pid) { SkipKeepsInv(next, s, pid); }
    case Drop(pid) => if Waits(s, pid) { DropKeepsInv(next, s, pid); }
    case Commit(pid) => if Runs(s, pid) { CommitKeepsInv(next, s, pid); }
  }

  lemma {:induction false} RunKeepsInv(next: nat -> nat, s: State, steps: seq<Step>)
    requires Schedule(next) && Inv(next, s) && AllLook(next, s, steps)
    ensures Inv(next, Run(next, s, steps))
    decreases |steps|
  {
    if steps != [] {
      RunKeepsInv(next, s, steps[..|steps| - 1]);
      StepKeepsInv(next, Run(next, s, steps[..|steps| - 1]), steps[|steps| - 1]);
    }
  }

  /** On every interleaving of polls, begins and commits: attempts come in turn and the due time never
      moves back, if and only if each attempt begins while the row is still due and no attempt younger
      than one period is uncommitted, and no commit is overtaken by a later attempt's. */
  lemma {:induction false} InTurnExactly(next: nat -> nat, s: State, steps: seq<Step>)
    requires Schedule(next) && Inv(next, s)
    ensures AllInTurn(next, s, steps) <==> AllLook(next, s, steps)
    decreases |steps|
  {
    if steps != [] {
      var before := steps[..|steps| - 1];
      InTurnExactly(next, s, before);
      if AllLook(next, s, before) {
        RunKeepsInv(next, s, before);
        StepInTurnExactly(next, Run(next, s, before), steps[|steps| - 1]);
      }
    }
  }

  lemma {:induction false} SeparatedSpread(next: nat -> nat, attempts: seq<nat>, k: nat)
    requires Schedule(next) && Separated(next, attempts) && 0 < k < |attempts|
    ensures next(attempts[0]) + (k - 1) * HOUR <= attempts[k]
    ensures next(attempts[0]) + k * HOUR <= next(attempts[k])
    decreases k
  {
    assert next(attempts[k - 1]) <= attempts[k];
    if k > 1 { SeparatedSpread(next, attempts, k - 1); }
  }

  /** Attempts in turn keep the budget: the n-th begins at least n - 1 hours after the first due time. */
  lemma InTurnKeepsBudget(next: nat -> nat, base: nat, now: nat, steps: seq<Step>, n: nat)
    requires Schedule(next) && AllInTurn(next, Initial(next, base, now), steps)
    requires 0 < n < |Run(next, Initial(next, base, now), steps).attempts|
    ensures next(base) + (n - 1) * HOUR <= Run(next, Initial(next, base, now), steps).attempts[n]
  {
    var s := Initial(next, base, now);
    InTurnExactly(next, s, steps);
    RunKeepsInv(next, s, steps);
    FirstAttemptStays(next, s, steps);
    SeparatedSpread(next, Run(next, s, steps).attempts, n);
  }

  lemma {:induction false} FirstAttemptStays(next: nat -> nat, s: State, steps: seq<Step>)
    requires s.attempts != []
    ensures var t := Run(next, s, steps); t.attempts != [] && t.attempts[0] == s.attempts[0]
    decreases |steps|
  {
    if steps != [] { FirstAttemptStays(next, s, steps[..|steps| - 1]); }
  }

  // ----- Neither look is taken -----

  /** Two polls while the schedule is due queue two tasks; the second begins any time after the first
      has committed, although the row then says the schedule is not due. */
  lemma QueuedTaskRunsAgain(next: nat -> nat, base: nat, now: nat, dt: nat)
    requires next(base) <= now && now + dt < next(now)
    ensures var s0 := Apply(next, Apply(next, Initial(next, base, now), Poll(0)), Poll(1));
            var s1 := Apply(next, Apply(next, s0, Begin(0)), Commit(0));
            var s2 := Apply(next, s1, Tick(dt));
            var s3 := Apply(next, s2, Begin(1));
            s2.due > s2.now && s3.attempts == [base, now, now + dt] && !InTurn(next, s2, s3)
  {
    var s0 := Apply(next, Apply(next, Initial(next, base, now), Poll(0)), Poll(1));
    var a := Apply(next, s0, Begin(0));
    assert Runs(a, 0) && Waits(a, 1) && a.attempts[1] == now;
    var s1 := Apply(next, a, Commit(0));
    assert Waits(s1, 1);
  }

  /** An attempt that outlasts its period and commits after its successor moves the due time back to an
      instant already past, so that the next poll queues yet another task at once. */
  lemma LateCommitMovesBack(next: nat -> nat, base: nat, now: nat, dt: nat)
    requires Schedule(next) && next(base) <= now && next(now) <= now + dt
    ensures var s0 := Apply(next, Apply(next, Initial(next, base, now), Poll(0)), Begin(0));
            var s1 := Apply(next, Apply(next, Apply(next, s0, Tick(dt)), Poll(1)), Begin(1));
            var s2 := Apply(next, s1, Commit(1));
            var s3 := Apply(next, s2, Commit(0));
            s2.due > s2.now && s3.due < s2.due && s3.due <= s3.now
  {
    var a := Apply(next, Initial(next, base, now), Poll(0));
    var s0 := Apply(next, a, Begin(0));
    assert Runs(s0, 0) && s0.attempts == [base, now];
    var b := Apply(next, Apply(next, s0, Tick(dt)), Poll(1));
    assert Waits(b, 1);
    var s1 := Apply(next, b, Begin(1));
    assert Runs(s1, 0) && Runs(s1, 1) && s1.attempts == [base, now, now + dt];
    var s2 := Apply(next, s1, Commit(1));
    assert Runs(s2, 0) && s2.attempts[1] == now;
  }
}
