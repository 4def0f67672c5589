/** Executing a campaign: lock, run, compare with the baseline, commit, release. */
module CampaignRun {
  import opened Common
  import CampaignLock
  import opened Reporter
  import opened Comparator

  const LOCK_TTL: nat := 300  // seconds

  // ----- One execution on the stored campaign -----

  datatype TestRun = TestRun(results: seq<TestResult>, score: real)

  // How the validation suite ended. A finished suite has stored its run under runId in a session of its
  // own, unless that failed, which it only logs.
  datatype Suite =
    | Ran(runId: string, status: string, results: seq<TestResult>, score: real, stored: bool)
    | Crashed

  datatype RunRow = RunRow(runId: string, status: string, score: real, scoreDelta: real, regressed: bool)

  datatype Outcome = Completed(row: RunRow, comparison: Comparison) | Archived | Conflict | Raised

  function BaselineId(id: string): Option<string> { if id == "" then None else Some(id) }

  function BaselineResults(testRuns: map<string, TestRun>, id: string): seq<TestResult> {
    if id != "" && id in testRuns then testRuns[id].results else []
  }

  function BaselineScore(testRuns: map<string, TestRun>, id: string): Option<real> {
    if id != "" && id in testRuns then Some(testRuns[id].score) else None
  }

  function RunStatus(regressed: bool, suiteStatus: string): string {
    if regressed then "COMPLETED_WITH_REGRESSIONS"
    else if suiteStatus in {"COMPLETED_WITH_FAILURES", "COMPLETED_WITH_ERRORS"} then suiteStatus
    else "COMPLETED"
  }

  // What executions of a campaign share: two columns of its row, and the lock keys.
  datatype Row = Row(baseline: string, lastRun: string, keys: CampaignLock.Keys)

  // One execution from start to end; `runId` is what it commits, None if it fails.
  function Executed(campaign: string, row: Row, now: nat, acquire: Fault, release: Fault, runId: Option<string>): Row {
    if !CampaignLock.SetSucceeds(row.keys, campaign, LOCK_TTL, now, acquire) then row
    else
      var locked := row.keys[campaign := now + LOCK_TTL];
      if !acquire.Works? then row.(keys := locked)
      else
        var keys := if release == NotSent then locked else locked - {campaign};
        if runId.None? then row.(keys := keys)
        else Row(if row.baseline == "" then runId.value else row.baseline, runId.value, keys)
  }

  predicate GotLock(keys: CampaignLock.Keys, campaign: string, now: nat, acquire: Fault) {
    CampaignLock.SetSucceeds(keys, campaign, LOCK_TTL, now, acquire) && acquire.Works?
  }

  class Campaign {
    const id: string
    var status: string
    var baselineRunId: string  // "" while no baseline is set
    var lastRunId: string
    var testRuns: map<string, TestRun>
    var runs: seq<RunRow>
    var regressions: seq<Regression>

    constructor (id: string)
      ensures this.id == id && status == "ACTIVE" && baselineRunId == "" && lastRunId == ""
      ensures testRuns == map[] && runs == [] && regressions == []
    {
      this.id := id;
      status, baselineRunId, lastRunId := "ACTIVE", "", "";
      testRuns, runs, regressions := map[], [], [];
    }

    // `set_baseline`: false stands for the 404 of an unknown test run.
    method SetBaseline(runId: string) returns (found: bool)
      modifies this`baselineRunId
      ensures found <==> runId in testRuns
      ensures baselineRunId == if found then runId else old(baselineRunId)
    {
      if runId !in testRuns {
        return false;
      }
      baselineRunId := runId;
      return true;
    }

    // `execute_campaign` with nothing interleaved; `commits` is false when the comparison, a row or the
    // commit fails after the suite.
    method ExecuteCampaign(locks: CampaignLock.LockStore, acquire: Fault, release: Fault, suite: Suite, commits: bool)
      returns (r: Outcome)
      requires suite.Ran? ==> suite.runId != ""
      modifies this`baselineRunId, this`lastRunId, this`testRuns, this`runs, this`regressions, locks`keys
      ensures r.Archived? <==> status == "ARCHIVED"
      ensures r.Conflict? <==> status != "ARCHIVED" && !GotLock(old(locks.keys), id, locks.now, acquire)
      ensures r.Raised? <==>
                status != "ARCHIVED" && GotLock(old(locks.keys), id, locks.now, acquire) && (suite.Crashed? || !commits)
      // a failed execution leaves the suite's own rows and nothing else
      ensures testRuns ==
              if (r.Completed? || r.Raised?) && suite.Ran? && suite.stored
              then old(testRuns)[suite.runId := TestRun(suite.results, suite.score)] else old(testRuns)
      ensures !r.Completed? ==>
                unchanged(`baselineRunId) && unchanged(`lastRunId) && unchanged(`runs) && unchanged(`regressions)
      ensures r.Completed? ==>
                && r.comparison == Diff(suite.results, suite.score, BaselineId(old(baselineRunId)),
                                        BaselineResults(testRuns, old(baselineRunId)),
                                        BaselineScore(testRuns, old(baselineRunId)))
                && r.row == RunRow(suite.runId, RunStatus(r.comparison.regressionDetected, suite.status), suite.score,
                                   r.comparison.scoreDelta, r.comparison.regressionDetected)
                && baselineRunId == (if old(baselineRunId) == "" then suite.runId else old(baselineRunId))
                && lastRunId == suite.runId
                && runs == old(runs) + [r.row]
                && regressions == old(regressions) + r.comparison.regressions
      // compared with the stored run the row's baseline named when it was read, if that has results
      ensures r.Completed? ==>
                var before := old(baselineRunId);
                if before != "" && before in testRuns && testRuns[before].results != []
                then
                  && r.comparison.baselineRunId == Some(before)
                  && r.comparison.baselineScore == Some(testRuns[before].score)
                else r.comparison.baselineRunId == None && !r.comparison.regressionDetected
      // a row says whether tests regressed, and else how the suite ended
      ensures r.Completed? ==>
                && r.row.runId == suite.runId && r.row.score == suite.score
                && r.row.scoreDelta == r.comparison.scoreDelta && r.row.regressed == r.comparison.regressionDetected
                && r.row.status == (if r.row.regressed then "COMPLETED_WITH_REGRESSIONS"
                                    else if suite.status == "COMPLETED_WITH_FAILURES" then "COMPLETED_WITH_FAILURES"
                                    else if suite.status == "COMPLETED_WITH_ERRORS" then "COMPLETED_WITH_ERRORS"
                                    else "COMPLETED")
      // whoever got the lock gives it back, whatever happened
      ensures status == "ARCHIVED" ==> locks.keys == old(locks.keys)
      ensures status != "ARCHIVED" ==>
                Row(baselineRunId, lastRunId, locks.keys) ==
                Executed(id, Row(old(baselineRunId), old(lastRunId), old(locks.keys)), locks.now, acquire, release,
                         if suite.Ran? && commits then Some(suite.runId) else None)
    {
      if status == "ARCHIVED" {
        return Archived;
      }
      var acquired := locks.Acquire(id, LOCK_TTL, acquire);
      if !acquired {
        return Conflict;
      }
      r := RunAndCommit(suite, commits);
      locks.Release(id, release);
    }

    // What `execute_campaign` does while it holds the lock.
    method RunAndCommit(suite: Suite, commits: bool) returns (r: Outcome)
      requires suite.Ran? ==> suite.runId != ""
      modifies this`baselineRunId, this`lastRunId, this`testRuns, this`runs, this`regressions
      ensures if suite.Crashed? || !commits then r.Raised? else r.Completed?
      ensures testRuns ==
              if suite.Ran? && suite.stored
              then old(testRuns)[suite.runId := TestRun(suite.results, suite.score)] else old(testRuns)
      ensures r.Raised? ==>
                unchanged(`baselineRunId) && unchanged(`lastRunId) && unchanged(`runs) && unchanged(`regressions)
      ensures r.Completed? ==>
                && r.comparison == Diff(suite.results, suite.score, BaselineId(old(baselineRunId)),
                                        BaselineResults(testRuns, old(baselineRunId)),
                                        BaselineScore(testRuns, old(baselineRunId)))
                && r.row == RunRow(suite.runId, RunStatus(r.comparison.regressionDetected, suite.status), suite.score,
                                   r.comparison.scoreDelta, r.comparison.regressionDetected)
                && baselineRunId == (if old(baselineRunId) == "" then suite.runId else old(baselineRunId))
                && lastRunId == suite.runId
                && runs == old(runs) + [r.row]
                && regressions == old(regressions) + r.comparison.regressions
    {
      if suite.Crashed? {
        return Raised;
      }
      if suite.stored {
        testRuns := testRuns[suite.runId := TestRun(suite.results, suite.score)];
      }
      if !commits {
        return Raised;
      }
      r := Commit(suite);
    }

    // The comparison and the rows it leads to, in one transaction.
    method Commit(suite: Suite) returns (r: Outcome)
      requires suite.Ran? && suite.runId != ""
      modifies this`baselineRunId, this`lastRunId, this`runs, this`regressions
      ensures r.Completed?
      ensures r.comparison == Diff(suite.results, suite.score, BaselineId(old(baselineRunId)),
                                   BaselineResults(testRuns, old(baselineRunId)),
                                   BaselineScore(testRuns, old(baselineRunId)))
      ensures r.row == RunRow(suite.runId, RunStatus(r.comparison.regressionDetected, suite.status), suite.score,
                              r.comparison.scoreDelta, r.comparison.regressionDetected)
      ensures baselineRunId == (if old(baselineRunId) == "" then suite.runId else old(baselineRunId))
      ensures lastRunId == suite.runId && runs == old(runs) + [r.row]
      ensures regressions == old(regressions) + r.comparison.regressions
    {
      var comparison := CompareRunsWithBaseline(suite.results, suite.score, BaselineId(baselineRunId),
                                                BaselineResults(testRuns, baselineRunId),
                                                BaselineScore(testRuns, baselineRunId));
      if baselineRunId == "" {
        baselineRunId := suite.runId;
      }
      var row := RunRow(suite.runId, RunStatus(comparison.regressionDetected, suite.status), suite.score,
                        comparison.scoreDelta, comparison.regressionDetected);
      runs := runs + [row];
      StoreRegressions(comparison.regressions);
      lastRunId := suite.runId;
      r := Completed(row, comparison);
    }

    // One row for each regression of the comparison.
    method StoreRegressions(found: seq<Regression>)
      modifies this`regressions
      ensures regressions == old(regressions) + found
    {
      for i := 0 to |found|
        invariant regressions == old(regressions) + found[..i]
      {
        regressions := regressions + [found[i]];
      }
    }
  }

  // ----- The protocol: executions of one campaign, interleaved -----

  // An execution has read the campaign row and holds on to what it saw, first without the lock,
  // then with it, and after its commit or its failure only has the release left.
  datatype Phase = Loaded | Locked | Finished

  // `commits` is how many executions had committed when this one read the row.
  datatype Execution = Execution(phase: Phase, baseline: string, commits: nat)

  datatype State = State(lock: CampaignLock.State, baseline: string, lastRun: string, commits: nat,
                         running: map<nat, Execution>)

  datatype Step =
    | Tick(dt: nat)
    | Load(pid: nat)
    | Acquire(pid: nat, fault: Fault)
    | Commit(pid: nat, runId: string)
    | Fail(pid: nat)
    | Release(pid: nat, fault: Fault)
    | SetBaseline(runId: string)

  function Initial(baseline: string): State {
    State(CampaignLock.INITIAL, baseline, "", 0, map[])
  }

  predicate InPhase(s: State, pid: nat, phase: Phase) {
    pid in s.running && s.running[pid].phase == phase
  }

  function Enter(s: State, pid: nat, phase: Phase): State
    requires pid in s.running
  {
    s.(running := s.running[pid := s.running[pid].(phase := phase)])
  }

  function Apply(campaign: string, s: State, step: Step): State {
    match step
    case Tick(dt) => s.(lock := CampaignLock.Apply(s.lock, CampaignLock.Tick(dt)))
    case Load(pid) =>
      if pid in s.running then s
      else s.(running := s.running[pid := Execution(Loaded, s.baseline, s.commits)])
    case Acquire(pid, fault) =>
      if !InPhase(s, pid, Loaded) then s
      else
        var t := s.(lock := CampaignLock.Apply(s.lock, CampaignLock.Acquire(pid, campaign, LOCK_TTL, fault)));
        if pid in t.lock.holders then Enter(t, pid, Locked) else t.(running := t.running - {pid})
    case Commit(pid, runId) =>
      // the row is written through what was read at load time
      if !InPhase(s, pid, Locked) || runId == "" then s
      else
        Enter(s.(baseline := if s.running[pid].baseline == "" then runId else s.baseline,
                 lastRun := runId, commits := s.commits + 1), pid, Finished)
    case Fail(pid) => if InPhase(s, pid, Locked) then Enter(s, pid, Finished) else s
    case Release(pid, fault) =>
      if !InPhase(s, pid, Finished) then s
      else s.(lock := CampaignLock.Apply(s.lock, CampaignLock.Release(pid, fault)), running := s.running - {pid})
    case SetBaseline(runId) => if runId == "" then s else s.(baseline := runId)
  }

  function Run(campaign: string, s: State, steps: seq<Step>): State {
    if steps == [] then s else Apply(campaign, Run(campaign, s, steps[..|steps| - 1]), steps[|steps| - 1])
  }

  // An execution that read the row before it had a baseline.
  predicate SawNoBaseline(s: State, pid: nat) {
    pid in s.running && s.running[pid].phase != Finished && s.running[pid].baseline == ""
  }

  // The interleaving hypothesis at one step: no execution takes the lock after another one has
  // committed since it read the row, and an operator does not set a baseline while an execution
  // that saw none is under way.
  ghost predicate Careful(s: State, step: Step) {
    match step
    case Acquire(pid, _) => InPhase(s, pid, Loaded) ==> s.running[pid].commits == s.commits
    case SetBaseline(_) => forall p :: !SawNoBaseline(s, p)
    case _ => true
  }

  ghost predicate CarefulRun(campaign: string, s: State, steps: seq<Step>) {
    && CampaignLock.Timely(Run(campaign, s, steps).lock)
    && (steps != [] ==>
          && CarefulRun(campaign, s, steps[..|steps| - 1])
          && Careful(Run(campaign, s, steps[..|steps| - 1]), steps[|steps| - 1]))
  }

  // Executions past their acquire are exactly the lock's holders.
  predicate LockMatches(campaign: string, s: State) {
    && CampaignLock.Owned(s.lock)
    && (forall p | p in s.lock.holders ::
          p in s.running && s.running[p].phase != Loaded && s.lock.holders[p].campaign == campaign)
    && (forall p | p in s.running && s.running[p].phase != Loaded :: p in s.lock.holders)
  }

  ghost predicate Inv(campaign: string, s: State) {
    && LockMatches(campaign, s)
    && (forall p | SawNoBaseline(s, p) && s.running[p].phase == Locked :: s.baseline == "")
    && (forall p | SawNoBaseline(s, p) && s.running[p].commits == s.commits :: s.baseline == "")
    && (forall p | p in s.running :: s.running[p].commits <= s.commits)
  }

  lemma HoldersAreUnique(campaign: string, s: State)
    requires LockMatches(campaign, s)
    ensures forall p, q | p in s.lock.holders && q in s.lock.holders :: p == q
  {
  }

  lemma AcquireKeepsInv(campaign: string, s: State, pid: nat, fault: Fault)
    requires Inv(campaign, s) && CampaignLock.Timely(s.lock) && Careful(s, Acquire(pid, fault))
    ensures Inv(campaign, Apply(campaign, s, Acquire(pid, fault)))
  {
    if InPhase(s, pid, Loaded) {
      var step := CampaignLock.Acquire(pid, campaign, LOCK_TTL, fault);
      CampaignLock.StepKeepsOwned(s.lock, step);
      var lock := CampaignLock.Apply(s.lock, step);
      assert forall p | p in lock.holders :: p == pid || p in s.lock.holders;
    }
  }

  lemma CommitKeepsInv(campaign: string, s: State, pid: nat, runId: string)
    requires Inv(campaign, s)
    ensures Inv(campaign, Apply(campaign, s, Commit(pid, runId)))
    ensures InPhase(s, pid, Locked) && runId != "" ==>
              Apply(campaign, s, Commit(pid, runId)).baseline ==
              if s.baseline == "" && s.running[pid].baseline == "" then runId else s.baseline
  {
    HoldersAreUnique(campaign, s);
    if InPhase(s, pid, Locked) && runId != "" {
      var t := Apply(campaign, s, Commit(pid, runId));
      assert forall p | p in t.running && p != pid :: t.running[p] == s.running[p];
    }
  }

  lemma StepKeepsInv(campaign: string, s: State, step: Step)
    requires Inv(campaign, s) && CampaignLock.Timely(s.lock) && Careful(s, step)
    ensures Inv(campaign, Apply(campaign, s, step))
  {
    match step
    case Tick(dt) =>
    case Load(pid) =>
    case Acquire(pid, fault) => AcquireKeepsInv(campaign, s, pid, fault);
    case Commit(pid, runId) => CommitKeepsInv(campaign, s, pid, runId);
    case Fail(pid) =>
    case Release(pid, fault) =>
      HoldersAreUnique(campaign, s);
      CampaignLock.StepKeepsOwned(s.lock, CampaignLock.Release(pid, fault));
    case SetBaseline(runId) =>
      var t := Apply(campaign, s, step);
      forall p
        ensures !SawNoBaseline(t, p)
      {
        assert !SawNoBaseline(s, p);
      }
  }

  lemma {:induction false} RunKeepsInv(campaign: string, s: State, steps: seq<Step>)
    requires Inv(campaign, s) && CarefulRun(campaign, s, steps)
    ensures Inv(campaign, Run(campaign, s, steps))
    decreases |steps|
  {
    if steps != [] {
      RunKeepsInv(campaign, s, steps[..|steps| - 1]);
      StepKeepsInv(campaign, Run(campaign, s, steps[..|steps| - 1]), steps[|steps| - 1]);
    }
  }

  predicate SetsBaseline(step: Step) { step.SetBaseline? }

  /** On every interleaving, the first execution to commit makes its run the baseline. */
  lemma FirstCommitBecomesBaseline(campaign: string, steps: seq<Step>, pid: nat, runId: string)
    requires runId != ""
    requires var s := Run(campaign, Initial(""), steps); s.baseline == "" && InPhase(s, pid, Locked)
    ensures Apply(campaign, Run(campaign, Initial(""), steps), Commit(pid, runId)).baseline == runId
  {
    BaselineSeen(campaign, Initial(""), steps);
  }

  // While the row has no baseline, no execution has seen one.
  lemma {:induction false} BaselineSeen(campaign: string, s: State, steps: seq<Step>)
    requires s.running == map[]
    ensures var t := Run(campaign, s, steps);
            t.baseline == "" ==> forall p | p in t.running :: t.running[p].baseline == ""
    decreases |steps|
  {
    if steps != [] {
      BaselineSeen(campaign, s, steps[..|steps| - 1]);
      var before := Run(campaign, s, steps[..|steps| - 1]);
      BaselineNeverCleared(campaign, before, steps[|steps| - 1]);
    }
  }

  lemma BaselineNeverCleared(campaign: string, s: State, step: Step)
    ensures s.baseline != "" ==> Apply(campaign, s, step).baseline != ""
  {
  }

  /** Once set, the baseline changes only when an operator sets it: no later execution, in any
      careful interleaving, ever replaces it. */
  lemma {:induction false} BaselineIsStable(campaign: string, s: State, steps: seq<Step>)
    requires Inv(campaign, s) && s.baseline != "" && CarefulRun(campaign, s, steps)
    requires forall i | 0 <= i < |steps| :: !SetsBaseline(steps[i])
    ensures Run(campaign, s, steps).baseline == s.baseline
    decreases |steps|
  {
    if steps != [] {
      var init := steps[..|steps| - 1];
      BaselineIsStable(campaign, s, init);
      RunKeepsInv(campaign, s, init);
      assert !SetsBaseline(steps[|steps| - 1]);
      if steps[|steps| - 1].Commit? {
        CommitKeepsInv(campaign, Run(campaign, s, init), steps[|steps| - 1].pid, steps[|steps| - 1].runId);
      }
    }
  }

  // A commit that writes the baseline through a row read while there was none.
  predicate StaleCommit(s: State, step: Step) {
    step.Commit? && step.runId != "" && InPhase(s, step.pid, Locked) && s.running[step.pid].baseline == ""
  }

  predicate NoStaleCommit(campaign: string, s: State, steps: seq<Step>) {
    steps != [] ==>
      && NoStaleCommit(campaign, s, steps[..|steps| - 1])
      && !StaleCommit(Run(campaign, s, steps[..|steps| - 1]), steps[|steps| - 1])
  }

  /** On any interleaving at all, lock or no lock: as long as no operator intervenes and run ids are
      fresh, a baseline survives if and only if no execution commits through a row it read while the
      campaign had none. */
  lemma {:induction false} BaselineSurvivesExactly(campaign: string, s: State, steps: seq<Step>)
    requires s.baseline != ""
    requires forall i | 0 <= i < |steps| :: !SetsBaseline(steps[i])
    requires forall i | 0 <= i < |steps| && steps[i].Commit? :: steps[i].runId != s.baseline
    ensures Run(campaign, s, steps).baseline == s.baseline <==> NoStaleCommit(campaign, s, steps)
    decreases |steps|
  {
    if steps != [] {
      var init, last := steps[..|steps| - 1], steps[|steps| - 1];
      assert forall i | 0 <= i < |init| :: init[i] == steps[i];
      BaselineSurvivesExactly(campaign, s, init);
      BaselineAfterStep(campaign, Run(campaign, s, init), last);
    }
  }

  lemma BaselineAfterStep(campaign: string, s: State, step: Step)
    requires !SetsBaseline(step)
    ensures Apply(campaign, s, step).baseline == if StaleCommit(s, step) then step.runId else s.baseline
  {
  }

  /** The hypothesis is needed: an execution that read the row before another one committed and
      took the lock after it was released replaces the baseline, although the two were never
      inside together. */
  lemma StaleRowOverwritesBaseline(campaign: string, first: string, second: string)
    requires campaign != "" && first != "" && second != "" && first != second
    ensures var s0 := Apply(campaign, Apply(campaign, Initial(""), Load(0)), Load(1));
            var s1 := Apply(campaign, Apply(campaign, s0, Acquire(0, Works)), Commit(0, first));
            var s2 := Apply(campaign, Apply(campaign, s1, Release(0, Works)), Acquire(1, Works));
            var s3 := Apply(campaign, s2, Commit(1, second));
            && s1.baseline == first && s3.baseline == second
            && CampaignLock.Exclusive(s1.lock) && CampaignLock.Exclusive(s2.lock) && CampaignLock.Timely(s3.lock)
            && !Careful(Apply(campaign, s1, Release(0, Works)), Acquire(1, Works))
  {
    var s0 := Apply(campaign, Apply(campaign, Initial(""), Load(0)), Load(1));
    var a := Apply(campaign, s0, Acquire(0, Works));
    assert InPhase(a, 0, Locked) && InPhase(a, 1, Loaded);
    var s1 := Apply(campaign, a, Commit(0, first));
    assert InPhase(s1, 0, Finished) && InPhase(s1, 1, Loaded);
    var b := Apply(campaign, s1, Release(0, Works));
    assert InPhase(b, 1, Loaded) && campaign !in b.lock.keys && 1 !in b.lock.holders;
    var s2 := Apply(campaign, b, Acquire(1, Works));
    assert InPhase(s2, 1, Locked);
  }

  /** Likewise an operator's baseline set while a first execution is under way is lost. */
  lemma StaleRowOverwritesOperator(campaign: string, chosen: string, runId: string)
    requires campaign != "" && chosen != "" && runId != ""
    ensures var s0 := Apply(campaign, Apply(campaign, Initial(""), Load(0)), SetBaseline(chosen));
            var s1 := Apply(campaign, Apply(campaign, s0, Acquire(0, Works)), Commit(0, runId));
            s0.baseline == chosen && s1.baseline == runId
  {
  }

  // ----- The method and the protocol agree -----

  function Finish(campaign: string, s: State, pid: nat, runId: Option<string>): State {
    Apply(campaign, s, if runId.Some? then Commit(pid, runId.value) else Fail(pid))
  }

  predicate Absent(s: State, pid: nat) { pid !in s.running && pid !in s.lock.holders }

  function RowOf(s: State): Row { Row(s.baseline, s.lastRun, s.lock.keys) }

  lemma LoadAndAcquire(campaign: string, s: State, pid: nat, acquire: Fault) returns (t: State)
    requires Absent(s, pid)
    ensures t == Apply(campaign, Apply(campaign, s, Load(pid)), Acquire(pid, acquire))
    ensures t.baseline == s.baseline && t.lastRun == s.lastRun && t.commits == s.commits && t.lock.now == s.lock.now
    ensures if GotLock(s.lock.keys, campaign, s.lock.now, acquire) then
              && t.running == s.running[pid := Execution(Locked, s.baseline, s.commits)]
              && t.lock.holders == s.lock.holders[pid := CampaignLock.Holder(campaign, s.lock.now + 300)]
              && t.lock.keys == s.lock.keys[campaign := s.lock.now + 300]
            else
              && t.running == s.running && t.lock.holders == s.lock.holders
              && RowOf(t) == Executed(campaign, RowOf(s), s.lock.now, acquire, Works, None)
  {
    var a := Apply(campaign, s, Load(pid));
    t := Apply(campaign, a, Acquire(pid, acquire));
    assert InPhase(a, pid, Loaded) && a.running - {pid} == s.running;
  }

  lemma FinishAndRelease(campaign: string, t: State, pid: nat, release: Fault, runId: Option<string>)
    returns (u: State)
    requires InPhase(t, pid, Locked) && (runId.Some? ==> runId.value != "")
    requires pid in t.lock.holders && t.lock.holders[pid].campaign == campaign
    ensures u == Apply(campaign, Finish(campaign, t, pid, runId), Release(pid, release))
    ensures u.running == t.running - {pid} && u.lock.holders == t.lock.holders - {pid}
    ensures u.lock.keys == if release == NotSent then t.lock.keys else t.lock.keys - {campaign}
    ensures u.lastRun == if runId.None? then t.lastRun else runId.value
    ensures u.baseline == if runId.Some? && t.running[pid].baseline == "" then runId.value else t.baseline
  {
    var f := Finish(campaign, t, pid, runId);
    assert InPhase(f, pid, Finished) && f.running - {pid} == t.running - {pid};
    u := Apply(campaign, f, Release(pid, release));
  }

  /** With nothing in between, the protocol's four steps change the campaign and the lock as
      `ExecuteCampaign` does, and leave every other execution alone. */
  lemma ExecutionIsFourSteps(campaign: string, s: State, pid: nat, acquire: Fault, release: Fault,
      runId: Option<string>)
    requires Absent(s, pid) && (runId.Some? ==> runId.value != "")
    ensures var t := Apply(campaign, Apply(campaign, s, Load(pid)), Acquire(pid, acquire));
            var u := Apply(campaign, Finish(campaign, t, pid, runId), Release(pid, release));
            && RowOf(u) == Executed(campaign, RowOf(s), s.lock.now, acquire, release, runId)
            && u.running == s.running && u.lock.holders == s.lock.holders
  {
    var t := LoadAndAcquire(campaign, s, pid, acquire);
    if GotLock(s.lock.keys, campaign, s.lock.now, acquire) {
      var u := FinishAndRelease(campaign, t, pid, release, runId);
      assert t.running - {pid} == s.running && t.lock.holders - {pid} == s.lock.holders;
    }
  }
}
