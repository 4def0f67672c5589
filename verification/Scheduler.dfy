/** How the scheduler engine advances a schedule's next run. */
module Scheduler {
  import opened Common
  import opened SlotSearch
  import opened NextRun
  import Dispatch

  // A row of the schedules table, as far as the engine reads or writes it.
  datatype Row = Row(
    enabled: bool, kind: string, interval: Option<int>, expr: Option<string>, nextRunAt: Option<nat>,
    lastRunAt: Option<nat>, lastStatus: string, lastError: string)

  // How `execute_campaign` ended: a run with a status, or an exception with its text.
  datatype CampaignRun = Finished(status: string) | Raised(error: string)

  // One call of `execute_scheduled_campaign`: the clock, the campaign's status if it exists, the run.
  datatype Call = Call(now: nat, campaign: Option<string>, run: CampaignRun)

  datatype Verdict = Executed | Failed | Skipped | Disabled | CampaignMissing | Invalid | Crashed

  predicate IsDue(row: Row, asOf: nat) {
    row.enabled && row.nextRunAt.Some? && row.nextRunAt.value <= asOf
  }

  predicate PassesValidation(row: Row) {
    if row.kind == "CRON" then ValidateCron(row.expr) == Accepted else ValidInterval(row.interval)
  }

  function Advanced(row: Row, now: nat): Outcome {
    NextRunAt(row.kind, row.interval, row.expr, now)
  }

  // `execute_scheduled_campaign` as a function of the row. A ValueError of the next-run search
  // escapes before the commit and leaves the row as it was.
  function Execute(row: Row, call: Call): (r: (Row, Verdict)) {
    if !row.enabled then (row, Disabled)
    else if call.campaign.None? then
      (row.(lastStatus := "FAILED", lastError := "campaign not found"), CampaignMissing)
    else if call.campaign.value != "ACTIVE" then
      (match Advanced(row, call.now)
       case At(t) => (row.(nextRunAt := Some(t)), Skipped)
       case ValueError => (row, Crashed))
    else if !PassesValidation(row) then
      (row.(lastStatus := "FAILED", lastError := "invalid schedule"), Invalid)
    else
      match Advanced(row, call.now)
      case ValueError => (row, Crashed)
      case At(t) =>
        match call.run
        case Finished(status) =>
          (row.(lastRunAt := Some(call.now), lastStatus := status, lastError := "", nextRunAt := Some(t)), Executed)
        case Raised(error) =>
          (row.(lastRunAt := Some(call.now), lastStatus := "FAILED", lastError := error, nextRunAt := Some(t)), Failed)
  }

  class ScheduleRow {
    var enabled: bool
    var kind: string
    var interval: Option<int>
    var expr: Option<string>
    var nextRunAt: Option<nat>
    var lastRunAt: Option<nat>
    var lastStatus: string
    var lastError: string

    ghost function Value(): Row
      reads this
    {
      Row(enabled, kind, interval, expr, nextRunAt, lastRunAt, lastStatus, lastError)
    }

    constructor (row: Row)
      ensures Value() == row
    {
      enabled, kind, interval, expr := row.enabled, row.kind, row.interval, row.expr;
      nextRunAt, lastRunAt, lastStatus, lastError := row.nextRunAt, row.lastRunAt, row.lastStatus, row.lastError;
    }

    // `execute_scheduled_campaign` on the loaded row.
    method ExecuteScheduled(call: Call) returns (verdict: Verdict)
      modifies this
      ensures (Value(), verdict) == Execute(old(Value()), call)
      ensures enabled == old(enabled) && kind == old(kind) && interval == old(interval) && expr == old(expr)
      // how each call ends
      ensures verdict.Disabled? <==> !old(enabled)
      ensures verdict.CampaignMissing? <==> old(enabled) && call.campaign == None
      ensures verdict.Skipped? ==> call.campaign.Some? && call.campaign.value != "ACTIVE"
      ensures verdict.Executed? ==> call.campaign == Some("ACTIVE") && call.run.Finished?
      ensures verdict.Failed? ==> call.campaign == Some("ACTIVE") && call.run.Raised?
      ensures verdict.Invalid? <==>
                && old(enabled) && call.campaign == Some("ACTIVE")
                && (if old(kind) == "CRON" then ValidateCron(old(expr)) != Accepted else !ValidInterval(old(interval)))
      ensures verdict.Crashed? ==> NextRunAt(old(kind), old(interval), old(expr), call.now) == ValueError
      // what it leaves
      ensures nextRunAt == if verdict.Skipped? || verdict.Executed? || verdict.Failed?
                           then Some(NextRunAt(old(kind), old(interval), old(expr), call.now).time) else old(nextRunAt)
      ensures verdict.Skipped? || verdict.Executed? || verdict.Failed? ==>
                NextRunAt(old(kind), old(interval), old(expr), call.now).At?
      ensures lastRunAt == if verdict.Executed? || verdict.Failed? then Some(call.now) else old(lastRunAt)
      ensures lastStatus == if verdict.Executed? then call.run.status
                            else if verdict.Failed? || verdict.Invalid? || verdict.CampaignMissing? then "FAILED"
                            else old(lastStatus)
      ensures verdict.CampaignMissing? ==> lastError == "campaign not found"
      ensures verdict.Invalid? ==> lastError == "invalid schedule"
      ensures verdict.Executed? ==> lastError == ""
      ensures verdict.Failed? ==> lastError == call.run.error
      ensures verdict.Disabled? || verdict.Skipped? || verdict.Crashed? ==> lastError == old(lastError)
    {
      if !enabled {
        return Disabled;
      }
      if call.campaign.None? {
        lastError := "campaign not found";
        lastStatus := "FAILED";
        return CampaignMissing;
      }
      if call.campaign.value != "ACTIVE" {
        var next := CalculateNextRunAt(kind, interval, expr, call.now);
        if next.ValueError? {
          return Crashed;
        }
        nextRunAt := Some(next.time);
        return Skipped;
      }
      if kind == "CRON" {
        if ValidateCron(expr) != Accepted {
          lastError := "invalid schedule";
          lastStatus := "FAILED";
          return Invalid;
        }
      } else {
        if !ValidInterval(interval) {
          lastError := "invalid schedule";
          lastStatus := "FAILED";
          return Invalid;
        }
      }
      var next := CalculateNextRunAt(kind, interval, expr, call.now);
      if next.ValueError? {
        return Crashed;
      }
      lastRunAt := Some(call.now);
      nextRunAt := Some(next.time);
      match call.run {
        case Finished(status) =>
          lastStatus := status;
          lastError := "";
          return Executed;
        case Raised(error) =>
          lastStatus := "FAILED";
          lastError := error;
          return Failed;
      }
    }
  }

  // ----- Runs of the worker -----

  function ExecuteAll(row: Row, calls: seq<Call>): Row {
    if calls == [] then row else Execute(ExecuteAll(row, calls[..|calls| - 1]), calls[|calls| - 1]).0
  }

  // Every call was made on a due schedule.
  predicate AllDue(row: Row, calls: seq<Call>) {
    calls == [] ||
    (AllDue(row, calls[..|calls| - 1]) &&
     IsDue(ExecuteAll(row, calls[..|calls| - 1]), calls[|calls| - 1].now))
  }

  // How many calls started a campaign run.
  function Starts(calls: seq<Call>): nat {
    if calls == [] then 0
    else Starts(calls[..|calls| - 1]) + (if calls[|calls| - 1].campaign == Some("ACTIVE") then 1 else 0)
  }

  predicate ValidRow(row: Row) {
    ValidSchedule(row.kind, row.interval, row.expr)
  }

  // The next run was computed from `base`.
  predicate ComputedFrom(row: Row, base: nat) {
    ValidRow(row) && row.enabled && Advanced(row, base).At? && row.nextRunAt == Some(Advanced(row, base).time)
  }

  lemma DueCallAdvances(row: Row, base: nat, call: Call) returns (base': nat)
    requires ComputedFrom(row, base) && IsDue(row, call.now)
    ensures ComputedFrom(Execute(row, call).0, base')
    ensures Execute(row, call).0.nextRunAt.value
            >= row.nextRunAt.value + (if call.campaign.Some? then 60 * MINUTE else 0)
  {
    ValidScheduleSpacing(row.kind, row.interval, row.expr, base, call.now);
    base' := if call.campaign.None? then base else call.now;
  }

  /** Over any run of calls each made while the row is due, the next run advances by at least an hour
      for each campaign run. */
  lemma {:induction false} RunsAdvance(row: Row, base: nat, calls: seq<Call>) returns (base': nat)
    requires ComputedFrom(row, base) && AllDue(row, calls)
    ensures ComputedFrom(ExecuteAll(row, calls), base')
    ensures ExecuteAll(row, calls).nextRunAt.value >= row.nextRunAt.value + Starts(calls) * (60 * MINUTE)
    decreases |calls|
  {
    base' := base;
    if calls != [] {
      var before := RunsAdvance(row, base, calls[..|calls| - 1]);
      base' := DueCallAdvances(ExecuteAll(row, calls[..|calls| - 1]), before, calls[|calls| - 1]);
    }
  }

  // ----- The worker's polls and tasks -----

  // The row's next-run function.
  function NextTime(row: Row): nat -> nat {
    (base: nat) => match Advanced(row, base) case At(t) => t case ValueError => base
  }

  /** The next-run function of an accepted schedule is later than its base, monotone, and keeps runs an
      hour apart, so that all of `Dispatch` applies to it. */
  lemma ValidRowIsSchedule(row: Row)
    requires ValidRow(row)
    ensures Dispatch.Schedule(NextTime(row))
  {
    var next := NextTime(row);
    forall t: nat
      ensures t < next(t)
    {
      ValidScheduleAdvances(row.kind, row.interval, row.expr, t);
    }
    forall a: nat, b: nat | a <= b
      ensures next(a) <= next(b)
    {
      ValidScheduleMonotone(row.kind, row.interval, row.expr, a, b);
    }
    forall a: nat, b: nat | next(a) <= b
      ensures next(a) + HOUR <= next(b)
    {
      ValidScheduleAdvances(row.kind, row.interval, row.expr, a);
      ValidScheduleSpacing(row.kind, row.interval, row.expr, a, b);
    }
  }

  predicate SameSchedule(a: Row, b: Row) {
    a.enabled == b.enabled && a.kind == b.kind && a.interval == b.interval && a.expr == b.expr
  }

  /** What the worker's steps do to the due time is what a call of the engine does to the row: nothing
      but the due time matters to later calls, an active or inactive campaign sets it to the next run
      after the call's own clock, and a missing campaign leaves it. */
  lemma CallsAreSteps(row: Row, call: Call)
    requires ValidRow(row) && row.enabled
    ensures SameSchedule(row, Execute(row, call).0)
    ensures Execute(row, call).0.nextRunAt ==
            if call.campaign.Some? then Some(NextTime(row)(call.now)) else row.nextRunAt
  {
    ValidScheduleAdvances(row.kind, row.interval, row.expr, call.now);
  }

  /** A poll queues a task for an enabled schedule from its due time on, whatever tasks are waiting. */
  lemma PollsWhenDue(row: Row, s: Dispatch.State, pid: nat)
    requires row.nextRunAt == Some(s.due) && pid !in s.tasks && row.enabled
    ensures IsDue(row, s.now) <==> s.due <= s.now
    ensures IsDue(row, s.now) <==> pid in Dispatch.Apply(NextTime(row), s, Dispatch.Poll(pid)).tasks
  {
  }

  /** On every interleaving of one accepted schedule's polls and tasks, attempts come in turn if and
      only if each looks again before it begins and before it commits. */
  lemma AttemptsInTurnExactly(row: Row, base: nat, now: nat, steps: seq<Dispatch.Step>)
    requires ComputedFrom(row, base)
    ensures var s := Dispatch.Initial(NextTime(row), base, now);
            && row.nextRunAt == Some(s.due)
            && (Dispatch.AllInTurn(NextTime(row), s, steps) <==> Dispatch.AllLook(NextTime(row), s, steps))
  {
    ValidRowIsSchedule(row);
    Dispatch.InTurnExactly(NextTime(row), Dispatch.Initial(NextTime(row), base, now), steps);
  }

  /** If they do look, the n+1st attempt begins at least n hours after the first due time. */
  lemma HourlyBudget(row: Row, base: nat, now: nat, steps: seq<Dispatch.Step>, n: nat)
    requires ComputedFrom(row, base)
    requires Dispatch.AllLook(NextTime(row), Dispatch.Initial(NextTime(row), base, now), steps)
    requires n + 1 < |Dispatch.Run(NextTime(row), Dispatch.Initial(NextTime(row), base, now), steps).attempts|
    ensures row.nextRunAt.value + n * HOUR
            <= Dispatch.Run(NextTime(row), Dispatch.Initial(NextTime(row), base, now), steps).attempts[n + 1]
  {
    AttemptsInTurnExactly(row, base, now, steps);
    ValidRowIsSchedule(row);
    Dispatch.InTurnKeepsBudget(NextTime(row), base, now, steps, n + 1);
  }

  /** They do not: of two tasks queued by two polls, the second runs the campaign again as soon as the
      first has committed, for every accepted schedule and anywhere inside its period, with no fault. */
  lemma QueuedTaskRunsAgain(row: Row, base: nat, now: nat, later: nat, first: string, second: string)
    requires ComputedFrom(row, base) && IsDue(row, now) && now <= later < NextTime(row)(now)
    ensures var a := Execute(row, Call(now, Some("ACTIVE"), Finished(first)));
            var b := Execute(a.0, Call(later, Some("ACTIVE"), Finished(second)));
            && a.1 == Executed && !IsDue(a.0, later) && b.1 == Executed && b.0.lastRunAt == Some(later)
    ensures var next := NextTime(row);
            var polled := Dispatch.Apply(next, Dispatch.Initial(next, base, now), Dispatch.Poll(0));
            var queued := Dispatch.Apply(next, polled, Dispatch.Poll(1));
            var served := Dispatch.Apply(next, Dispatch.Apply(next, queued, Dispatch.Begin(0)), Dispatch.Commit(0));
            var passed := Dispatch.Apply(next, served, Dispatch.Tick(later - now));
            var again := Dispatch.Apply(next, passed, Dispatch.Begin(1));
            again.attempts == [base, now, later]
  {
    ValidScheduleAdvances(row.kind, row.interval, row.expr, now);
    ValidScheduleAdvances(row.kind, row.interval, row.expr, later);
    Dispatch.QueuedTaskRunsAgain(NextTime(row), base, now, later - now);
  }
}
