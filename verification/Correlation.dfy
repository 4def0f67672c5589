/** Alert correlation with its look and its commit apart: any number of correlations and operations of
    analysts interleave. Each correlation writes through the incident it read. */
module Correlation {
  import opened Common
  import opened IncidentScoring
  import opened Scores
  import opened Incidents

  // A correlation between its look and its commit; `seen` is the table it looked at.
  datatype Pending = Pending(query: Query, risk: int, found: Option<nat>, seen: seq<Incident>)

  datatype State = State(incidents: seq<Incident>, pending: map<nat, Pending>)

  // A correlation that fails does nothing; the other operations are one transaction each.
  datatype Step =
    | Operate(op: Incidents.Step)
    | Look(pid: nat, query: Query, evidence: Evidence, found: Option<nat>)
    | Commit(pid: nat)
    | Fail(pid: nat)

  // A column is written only if the correlation changed the value it read.
  function Column<T(==)>(row: T, read: T, written: T): T { if written == read then row else written }

  function Rewritten(row: Incident, read: Incident, risk: int, now: int): Incident {
    var raised := Raised(read, risk, now);
    row.(risk := Column(row.risk, read.risk, raised.risk),
         severity := Column(row.severity, read.severity, raised.severity),
         updatedAt := Column(row.updatedAt, read.updatedAt, raised.updatedAt))
  }

  /** The larger risk and its severity are written only where they differ from what was read; what others
      wrote in the meantime stays in the columns that do not. */
  lemma RewrittenExactly(row: Incident, read: Incident, risk: int, now: int)
    ensures var r := Rewritten(row, read, risk, now);
            && r.risk == (if risk > read.risk then risk else row.risk)
            && (var s := Classify(if risk > read.risk then risk else read.risk);
                r.severity == if s == read.severity then row.severity else s)
            && r.updatedAt == (if now == read.updatedAt then row.updatedAt else now)
            && r == row.(risk := r.risk, severity := r.severity, updatedAt := r.updatedAt)
  {
  }

  /** Analysts' operations take effect at once, whatever correlations are on their way. */
  lemma OperationsAreSteps(s: State, op: Incidents.Step)
    requires !op.Correlate?
    ensures Apply(s, Operate(op)) == State(Incidents.Apply(s.incidents, op), s.pending)
  {
  }

  predicate Fits(p: Pending, incidents: seq<Incident>) {
    p.found.Some? ==> p.found.value < |p.seen| <= |incidents|
  }

  function Written(incidents: seq<Incident>, p: Pending): seq<Incident>
    requires Fits(p, incidents)
  {
    match p.found
    case Some(k) => incidents[k := Rewritten(incidents[k], p.seen[k], p.risk, p.query.now)]
    case None => Correlated(incidents, p.query, p.risk, None)
  }

  function Apply(s: State, step: Step): State {
    match step
    case Operate(op) => if op.Correlate? then s else s.(incidents := Incidents.Apply(s.incidents, op))
    case Look(pid, q, e, found) =>
      if pid !in s.pending && Finds(s.incidents, q, found) then
        s.(pending := s.pending[pid := Pending(q, RiskOf(e), found, s.incidents)])
      else s
    case Commit(pid) =>
      if pid in s.pending && Fits(s.pending[pid], s.incidents) then
        State(Written(s.incidents, s.pending[pid]), s.pending - {pid})
      else s
    case Fail(pid) => s.(pending := s.pending - {pid})
  }

  function Run(s: State, steps: seq<Step>): State {
    if steps == [] then s else Apply(Run(s, steps[..|steps| - 1]), steps[|steps| - 1])
  }

  function Start(incidents: seq<Incident>): State { State(incidents, map[]) }

  /** With nothing in between, look and commit do what one correlation does. */
  lemma CorrelateIsTwoSteps(s: State, pid: nat, q: Query, e: Evidence, found: Option<nat>)
    requires pid !in s.pending && Finds(s.incidents, q, found)
    ensures Apply(Apply(s, Look(pid, q, e, found)), Commit(pid))
            == s.(incidents := Incidents.Apply(s.incidents, Correlate(q, e, found)))
  {
    var p := LookAlone(s, pid, q, e, found);
    UnreadIsCorrelated(s.incidents, q, p.risk, found);
    CommitAlone(s, pid, p);
  }

  lemma LookAlone(s: State, pid: nat, q: Query, e: Evidence, found: Option<nat>) returns (p: Pending)
    requires pid !in s.pending && Finds(s.incidents, q, found)
    ensures p == Pending(q, p.risk, found, s.incidents) && Fits(p, s.incidents)
    ensures Apply(s, Look(pid, q, e, found)) == s.(pending := s.pending[pid := p])
    ensures Incidents.Apply(s.incidents, Correlate(q, e, found)) == Correlated(s.incidents, q, p.risk, found)
  {
    var risk := CorrelateInserts(s.incidents, q, e, found);
    p := Pending(q, risk, found, s.incidents);
    FoundFits(p);
  }

  lemma FoundFits(p: Pending)
    requires Finds(p.seen, p.query, p.found)
    ensures Fits(p, p.seen)
  {
  }

  // Written through a row that nobody changed since, a correlation raises that row.
  lemma UnreadIsCorrelated(incidents: seq<Incident>, q: Query, risk: int, found: Option<nat>)
    requires Fits(Pending(q, risk, found, incidents), incidents)
    ensures Written(incidents, Pending(q, risk, found, incidents)) == Correlated(incidents, q, risk, found)
  {
  }

  lemma CommitAlone(s: State, pid: nat, p: Pending)
    requires pid !in s.pending && Fits(p, s.incidents)
    ensures Apply(s.(pending := s.pending[pid := p]), Commit(pid)) == s.(incidents := Written(s.incidents, p))
  {
    assert s.pending[pid := p] - {pid} == s.pending;
  }

  // ----- What is on its way rests on what was seen -----

  predicate PendingInv(p: Pending, incidents: seq<Incident>) {
    Finds(p.seen, p.query, p.found) && SameOrigins(p.seen, incidents) && Fits(p, incidents)
  }

  ghost predicate Inv(s: State) {
    forall pid | pid in s.pending :: PendingInv(s.pending[pid], s.incidents)
  }

  lemma WrittenKeepsOrigins(incidents: seq<Incident>, p: Pending)
    requires Fits(p, incidents)
    ensures SameOrigins(incidents, Written(incidents, p))
  {
  }

  lemma StepKeepsOrigins(s: State, step: Step)
    ensures SameOrigins(s.incidents, Apply(s, step).incidents)
  {
    match step
    case Operate(op) => Incidents.StepKeepsOrigins(s.incidents, op);
    case Look(_, _, _, _) =>
    case Commit(pid) =>
      if pid in s.pending && Fits(s.pending[pid], s.incidents) {
        WrittenKeepsOrigins(s.incidents, s.pending[pid]);
      }
    case Fail(_) =>
  }

  lemma OriginsCompose(a: seq<Incident>, b: seq<Incident>, c: seq<Incident>)
    requires SameOrigins(a, b) && SameOrigins(b, c)
    ensures SameOrigins(a, c)
  {
    forall k | 0 <= k < |a|
      ensures SameOrigin(a[k], c[k])
    {
      assert SameOrigin(a[k], b[k]) && SameOrigin(b[k], c[k]);
    }
  }

  lemma LookIsKept(s: State, step: Step, pid: nat)
    requires pid in Apply(s, step).pending
    ensures if pid in s.pending then Apply(s, step).pending[pid] == s.pending[pid]
            else step.Look? && step.pid == pid && Finds(s.incidents, step.query, step.found)
                 && Apply(s, step) == s.(pending := s.pending[pid := Pending(step.query, RiskOf(step.evidence),
                                                                             step.found, s.incidents)])
  {
  }

  lemma StepKeepsInv(s: State, step: Step)
    requires Inv(s)
    ensures Inv(Apply(s, step))
  {
    var t := Apply(s, step);
    StepKeepsOrigins(s, step);
    forall pid | pid in t.pending
      ensures PendingInv(t.pending[pid], t.incidents)
    {
      LookIsKept(s, step, pid);
      if pid in s.pending { OriginsCompose(s.pending[pid].seen, s.incidents, t.incidents); }
    }
  }

  lemma {:induction false} RunKeepsInv(incidents: seq<Incident>, steps: seq<Step>)
    ensures Inv(Run(Start(incidents), steps))
    decreases |steps|
  {
    if steps != [] {
      RunKeepsInv(incidents, steps[..|steps| - 1]);
      StepKeepsInv(Run(Start(incidents), steps[..|steps| - 1]), steps[|steps| - 1]);
    }
  }

  // ----- When openings stay a window apart -----

  predicate Opens(s: State, step: Step, campaign: string) {
    && step.Commit? && step.pid in s.pending
    && s.pending[step.pid].found.None? && s.pending[step.pid].query.campaign == Some(campaign)
  }

  // An insert that its look should have prevented, or that another one forestalled.
  predicate Crowds(s: State, step: Step, campaign: string) {
    && Opens(s, step, campaign)
    && var p := s.pending[step.pid];
       ClosedInWindow(p.seen, p.query, campaign) || OpenedSince(p.seen, s.incidents, p.query, campaign)
  }

  predicate NoCrowding(incidents: seq<Incident>, steps: seq<Step>, campaign: string) {
    steps != [] ==>
      && NoCrowding(incidents, steps[..|steps| - 1], campaign)
      && !Crowds(Run(Start(incidents), steps[..|steps| - 1]), steps[|steps| - 1], campaign)
  }

  lemma OpeningIsSpacedExactly(s: State, step: Step, campaign: string)
    requires Inv(s) && campaign != "" && Spaced(s.incidents, campaign) && Opens(s, step, campaign)
    ensures Spaced(Apply(s, step).incidents, campaign) <==> !Crowds(s, step, campaign)
  {
    var p := s.pending[step.pid];
    assert PendingInv(p, s.incidents);
    InsertIsSpacedExactly(p.seen, s.incidents, p.query, p.risk, campaign);
  }

  lemma OthersOpenNone(s: State, step: Step, campaign: string)
    requires !Opens(s, step, campaign)
    ensures var after := Apply(s, step).incidents;
            forall k | |s.incidents| <= k < |after| :: !Pushed(after[k], campaign)
  {
    if step.Operate? && !step.op.Correlate? { Incidents.OthersOpenNone(s.incidents, step.op, campaign); }
  }

  lemma StepIsSpacedExactly(s: State, step: Step, campaign: string)
    requires Inv(s) && campaign != "" && Spaced(s.incidents, campaign)
    ensures Spaced(Apply(s, step).incidents, campaign) <==> !Crowds(s, step, campaign)
  {
    if Opens(s, step, campaign) {
      OpeningIsSpacedExactly(s, step, campaign);
    } else {
      StepKeepsOrigins(s, step);
      OthersOpenNone(s, step, campaign);
      OthersKeepSpacing(s.incidents, Apply(s, step).incidents, campaign);
    }
  }

  /** On every interleaving of correlations and operations, the incidents the correlator opens for a
      campaign stay more than a window apart if and only if nobody inserts one after looking past an
      incident of the window that was closed, or after another correlation opened one in the window since
      the look. */
  lemma {:induction false} SpacedExactly(incidents: seq<Incident>, steps: seq<Step>, campaign: string)
    requires campaign != "" && Spaced(incidents, campaign)
    ensures Spaced(Run(Start(incidents), steps).incidents, campaign) <==> NoCrowding(incidents, steps, campaign)
    decreases |steps|
  {
    if steps != [] {
      var s := Run(Start(incidents), steps[..|steps| - 1]);
      var step := steps[|steps| - 1];
      SpacedExactly(incidents, steps[..|steps| - 1], campaign);
      RunKeepsInv(incidents, steps[..|steps| - 1]);
      if Spaced(s.incidents, campaign) {
        StepIsSpacedExactly(s, step, campaign);
      } else if Spaced(Apply(s, step).incidents, campaign) {
        StepKeepsOrigins(s, step);
        SpacingOfEarlier(s.incidents, Apply(s, step).incidents, campaign);
      }
    }
  }

  /** Then the bound of serial correlation holds on that interleaving too. */
  lemma ConcurrentBound(steps: seq<Step>, campaign: string, from: int, to: int)
    requires campaign != "" && NoCrowding([], steps, campaign) && from <= to
    ensures CountPushed(Run(Start([]), steps).incidents, campaign, from, to) <= (to - from) / 1_800_000_000 + 1
  {
    SpacedExactly([], steps, campaign);
    SpacedCount(Run(Start([]), steps).incidents, campaign, from, to);
  }

  /** Two alerts that both look before either commits open two incidents. */
  lemma ConcurrentLooksOpenTwo(q: Query, r: Query, e: Evidence, campaign: string)
    requires campaign != "" && q.campaign == r.campaign == Some(campaign) && r.now <= q.now + WINDOW
    ensures var looked := Apply(Apply(Start([]), Look(0, q, e, None)), Look(1, r, e, None));
            var both := Apply(Apply(looked, Commit(0)), Commit(1)).incidents;
            |both| == 2 && !Spaced(both, campaign)
  {
    assert Finds([], q, None) && Finds([], r, None);
    var first := Apply(Start([]), Look(0, q, e, None));
    var looked := Apply(first, Look(1, r, e, None));
    assert looked.pending[0].query == q && looked.pending[1].query == r;
    var one := Apply(looked, Commit(0));
    assert 1 in one.pending && one.incidents == Correlated([], q, looked.pending[0].risk, None);
    var both := Apply(one, Commit(1)).incidents;
    assert Pushed(both[0], campaign) && Pushed(both[1], campaign);
  }

  // ----- When risks never fall -----

  // A commit whose own risk is above the one it read and below the one another commit wrote since.
  predicate LosesRaise(s: State, step: Step) {
    && step.Commit? && step.pid in s.pending && s.pending[step.pid].found.Some?
    && var p := s.pending[step.pid];
       Fits(p, s.incidents) && p.seen[p.found.value].risk < p.risk < s.incidents[p.found.value].risk
  }

  predicate NoRaiseLost(s: State, steps: seq<Step>) {
    steps != [] ==>
      NoRaiseLost(s, steps[..|steps| - 1]) && !LosesRaise(Run(s, steps[..|steps| - 1]), steps[|steps| - 1])
  }

  // No step of the run lowers a risk or loses an incident.
  predicate RisksOnlyRise(s: State, steps: seq<Step>) {
    steps != [] ==>
      && RisksOnlyRise(s, steps[..|steps| - 1])
      && Extends(Run(s, steps[..|steps| - 1]).incidents, Run(s, steps).incidents)
  }

  lemma OperationExtends(incidents: seq<Incident>, op: Incidents.Step)
    requires !op.Correlate?
    ensures Extends(incidents, Incidents.Apply(incidents, op))
  {
  }

  lemma WrittenExtendsExactly(incidents: seq<Incident>, p: Pending)
    requires Fits(p, incidents)
    ensures Extends(incidents, Written(incidents, p))
            <==> !(p.found.Some? && p.seen[p.found.value].risk < p.risk < incidents[p.found.value].risk)
  {
    if p.found.Some? {
      var k := p.found.value;
      var after := Written(incidents, p);
      assert forall j | 0 <= j < |incidents| && j != k :: after[j] == incidents[j];
      assert Extends(incidents, after) ==> Outlives(incidents[k], after[k]);
    }
  }

  lemma StepRisesExactly(s: State, step: Step)
    ensures Extends(s.incidents, Apply(s, step).incidents) <==> !LosesRaise(s, step)
  {
    match step
    case Operate(op) => if !op.Correlate? { OperationExtends(s.incidents, op); }
    case Look(_, _, _, _) =>
    case Commit(pid) =>
      if pid in s.pending && Fits(s.pending[pid], s.incidents) {
        WrittenExtendsExactly(s.incidents, s.pending[pid]);
      }
    case Fail(_) =>
  }

  /** On every interleaving no incident's risk ever falls if and only if no correlation commits a risk
      above the one it read and below the one another has written since. */
  lemma {:induction false} RisksRiseExactly(s: State, steps: seq<Step>)
    ensures RisksOnlyRise(s, steps) <==> NoRaiseLost(s, steps)
    decreases |steps|
  {
    if steps != [] {
      RisksRiseExactly(s, steps[..|steps| - 1]);
      StepRisesExactly(Run(s, steps[..|steps| - 1]), steps[|steps| - 1]);
    }
  }

  // Two alerts of one incident that both look before either commits.
  function TwoLooks(i: Incident, q: Query, first: Evidence, second: Evidence): State {
    Apply(Apply(Start([i]), Look(0, q, first, Some(0))), Look(1, q, second, Some(0)))
  }

  lemma BothWait(i: Incident, q: Query, first: Evidence, second: Evidence)
    requires Finds([i], q, Some(0))
    ensures var a, b := Pending(q, RiskOf(first), Some(0), [i]), Pending(q, RiskOf(second), Some(0), [i]);
            TwoLooks(i, q, first, second) == State([i], map[0 := a, 1 := b])
  {
    var s := Apply(Start([i]), Look(0, q, first, Some(0)));
    assert s == State([i], map[0 := Pending(q, RiskOf(first), Some(0), [i])]);
  }

  lemma LowerOverwrites(i: Incident, q: Query, high: int, low: int)
    requires i.risk < low < high
    ensures var a, b := Pending(q, high, Some(0), [i]), Pending(q, low, Some(0), [i]);
            var raised := Apply(State([i], map[0 := a, 1 := b]), Commit(0));
            var after := Apply(raised, Commit(1));
            && |raised.incidents| == |after.incidents| == 1
            && raised.incidents[0].risk == high && after.incidents[0].risk == low
            && LosesRaise(raised, Commit(1))
  {
    var a, b := Pending(q, high, Some(0), [i]), Pending(q, low, Some(0), [i]);
    assert map[0 := a, 1 := b] - {0} == map[1 := b];
  }

  /** The higher risk is written first and overwritten by the lower. */
  lemma HigherRiskIsLost(i: Incident, q: Query, high: Evidence, low: Evidence)
    requires Finds([i], q, Some(0)) && i.risk < RiskOf(low) < RiskOf(high)
    ensures var raised := Apply(TwoLooks(i, q, high, low), Commit(0));
            var after := Apply(raised, Commit(1));
            && |raised.incidents| == |after.incidents| == 1
            && raised.incidents[0].risk == RiskOf(high) && after.incidents[0].risk == RiskOf(low)
            && LosesRaise(raised, Commit(1))
  {
    BothWait(i, q, high, low);
    LowerOverwrites(i, q, RiskOf(high), RiskOf(low));
  }
}
