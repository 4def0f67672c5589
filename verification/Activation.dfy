/** When an activation takes effect at once, and when an older document is still handed out. */
module Activation {
  import opened Common
  import opened CacheAside

  predicate ChangesTable<D>(step: Step<D>) { step.Create? || step.Activate? || step.Bootstrap? }

  predicate LeavesTable<D>(steps: seq<Step<D>>) {
    forall i | 0 <= i < |steps| :: !ChangesTable(steps[i])
  }

  // Every answer given from s on, by a run that leaves the table alone, is p or the fallback.
  ghost predicate OnlyAnswers<D(!new), P(!new)>(rules: Rules<D, P>, s: State<D, P>, p: P) {
    forall steps | LeavesTable(steps) :: AnswersAre(s.answers, Run(rules, s, steps).answers, p)
  }

  ghost predicate AnswersAre<P>(before: seq<Answer<P>>, after: seq<Answer<P>>, p: P) {
    before <= after
    && forall i | |before| <= i < |after| && after[i].source != Fallback :: after[i].policy == p
  }

  // Neither a live cached copy nor a reader about to write one holds anything but p.
  ghost predicate NothingOld<D, P>(s: State<D, P>, p: P) {
    && (s.cached.Some? && s.now < s.cached.value.dead ==> s.cached.value.policy == p)
    && (forall pid | pid in s.readers && s.readers[pid].Fetched? :: s.readers[pid].policy == p)
  }

  ghost predicate OneServed<D, P>(rules: Rules<D, P>, rows: Table<D>, p: P) {
    AtMostOneActive(rows) && Serves(rules, rows, p)
  }

  // Up to state t nothing but p has been answered since s, and nothing else is on its way.
  ghost predicate Holds<D, P>(s: State<D, P>, t: State<D, P>, p: P) {
    t.rows == s.rows && NothingOld(t, p) && AnswersAre(s.answers, t.answers, p)
  }

  lemma HoldsOn<D(!new), P(!new)>(s: State<D, P>, t: State<D, P>, u: State<D, P>, p: P)
    requires Holds(s, t, p) && Holds(t, u, p)
    ensures Holds(s, u, p)
  {
    forall i | |s.answers| <= i < |u.answers| && u.answers[i].source != Fallback
      ensures u.answers[i].policy == p
    {
      assert i < |t.answers| ==> u.answers[i] == t.answers[i];
    }
  }

  lemma StepKeepsNothingOld<D(!new), P(!new)>(rules: Rules<D, P>, s: State<D, P>, p: P, step: Step<D>)
    requires OneServed(rules, s.rows, p) && NothingOld(s, p) && !ChangesTable(step)
    ensures Holds(s, Apply(rules, s, step), p)
  {
    if step.Query? && step.pid in s.readers && s.readers[step.pid].Missed? && Selects(s.rows, step.pick) {
      var v :| v in s.rows && s.rows[v].active && rules.read(s.rows[v].document) == Some(p);
      assert step.pick.Some? ==> step.pick.value == v;
    }
  }

  lemma {:induction false} RunKeepsNothingOld<D(!new), P(!new)>(
    rules: Rules<D, P>, s: State<D, P>, p: P, steps: seq<Step<D>>)
    requires OneServed(rules, s.rows, p) && NothingOld(s, p) && LeavesTable(steps)
    ensures Holds(s, Run(rules, s, steps), p)
    decreases |steps|
  {
    if steps != [] {
      var before := steps[..|steps| - 1];
      assert forall i | 0 <= i < |before| :: before[i] == steps[i];
      RunKeepsNothingOld(rules, s, p, before);
      var t := Run(rules, s, before);
      StepKeepsNothingOld(rules, t, p, steps[|steps| - 1]);
      HoldsOn(s, t, Run(rules, s, steps), p);
    }
  }

  lemma RunSnoc<D(!new), P(!new)>(rules: Rules<D, P>, s: State<D, P>, steps: seq<Step<D>>, step: Step<D>)
    ensures Run(rules, s, steps + [step]) == Apply(rules, Run(rules, s, steps), step)
  {
    assert (steps + [step])[..|steps|] == steps;
  }

  lemma RunOne<D(!new), P(!new)>(rules: Rules<D, P>, s: State<D, P>, step: Step<D>)
    ensures Run(rules, s, [step]) == Apply(rules, s, step)
  {
    assert [step][..0] == [];
  }

  // A process that is not under way.
  lemma Newcomer<D(!new), P(!new)>(s: State<D, P>) returns (pid: nat)
    ensures pid !in s.started && pid !in s.readers
  {
    pid := AboveAll(s.started.Keys + s.readers.Keys);
  }

  lemma {:induction false} AboveAll(pids: set<nat>) returns (bound: nat)
    ensures forall pid | pid in pids :: pid < bound
    decreases |pids|
  {
    bound := 0;
    if pids != {} {
      var pid :| pid in pids;
      var rest := AboveAll(pids - {pid});
      bound := if rest > pid then rest else pid + 1;
      assert forall q | q in pids :: q == pid || q in pids - {pid};
    }
  }

  // A call that begins now is answered from the live copy.
  lemma NextCallHits<D(!new), P(!new)>(rules: Rules<D, P>, s: State<D, P>) returns (steps: seq<Step<D>>)
    requires s.cached.Some? && s.now < s.cached.value.dead
    ensures LeavesTable(steps)
    ensures Run(rules, s, steps).answers == s.answers + [Answer(s.cached.value.policy, s.now, s.now, Cache)]
  {
    var pid := Newcomer(s);
    steps := [Begin(pid)] + [Get(pid, Works)];
    RunOne(rules, s, Begin(pid));
    RunSnoc(rules, s, [Begin(pid)], Get(pid, Works));
  }

  // A reader that holds q caches it, and a call that begins afterwards is answered q.
  lemma FetchedReaderSpreads<D(!new), P(!new)>(rules: Rules<D, P>, s: State<D, P>, pid: nat)
    returns (steps: seq<Step<D>>)
    requires pid in s.readers && s.readers[pid].Fetched?
    ensures LeavesTable(steps)
    ensures var after := Run(rules, s, steps).answers;
            && |after| == |s.answers| + 2
            && after[|s.answers| + 1] == Answer(s.readers[pid].policy, s.now, s.now, Cache)
  {
    var t := Apply(rules, s, SetEx(pid, Works));
    var rest := NextCallHits(rules, t);
    RunOne(rules, s, SetEx(pid, Works));
    steps := [SetEx(pid, Works)] + rest;
    RunConcat(rules, s, [SetEx(pid, Works)], rest);
  }

  lemma {:induction false} RunConcat<D(!new), P(!new)>(
    rules: Rules<D, P>, s: State<D, P>, a: seq<Step<D>>, b: seq<Step<D>>)
    ensures Run(rules, s, a + b) == Run(rules, Run(rules, s, a), b)
    decreases |b|
  {
    if b == [] {
      assert a + b == a;
    } else {
      assert (a + b)[..|a + b| - 1] == a + b[..|b| - 1];
      RunConcat(rules, s, a, b[..|b| - 1]);
    }
  }

  /** From any state whose active row reads as p, with any number of calls under way: every later
      answer is p (or the fallback), on all runs that leave the table alone, if and only if no live
      cached copy and no reader between its query and its cache write holds anything else. When one
      does, a call that has not even begun can still be answered with it. */
  lemma TakesEffectExactly<D(!new), P(!new)>(rules: Rules<D, P>, s: State<D, P>, p: P)
    requires OneServed(rules, s.rows, p)
    ensures OnlyAnswers(rules, s, p) <==> NothingOld(s, p)
  {
    if NothingOld(s, p) {
      forall steps | LeavesTable(steps)
        ensures AnswersAre(s.answers, Run(rules, s, steps).answers, p)
      {
        RunKeepsNothingOld(rules, s, p, steps);
      }
    } else if s.cached.Some? && s.now < s.cached.value.dead && s.cached.value.policy != p {
      var steps := NextCallHits(rules, s);
      assert Run(rules, s, steps).answers[|s.answers|].policy != p;
      assert !AnswersAre(s.answers, Run(rules, s, steps).answers, p);
    } else {
      var pid :| pid in s.readers && s.readers[pid].Fetched? && s.readers[pid].policy != p;
      var steps := FetchedReaderSpreads(rules, s, pid);
      assert Run(rules, s, steps).answers[|s.answers| + 1].policy != p;
      assert !AnswersAre(s.answers, Run(rules, s, steps).answers, p);
    }
  }

  /** So an activation and its DEL take effect at once if and only if no reader under way holds
      another policy, and, should the DEL not be sent, no live cached copy does either. */
  lemma ActivationIsImmediateExactly<D(!new), P(!new)>(rules: Rules<D, P>, s: State<D, P>, version: string, del: Fault)
    requires AtMostOneActive(s.rows) && CanActivate(rules, s.rows, version)
    ensures var p := rules.read(s.rows[version].document).value;
            OnlyAnswers(rules, Apply(rules, Apply(rules, s, Activate(version)), Delete(del)), p)
            <==> && (del == NotSent && s.cached.Some? && s.now < s.cached.value.dead ==> s.cached.value.policy == p)
                 && (forall pid | pid in s.readers && s.readers[pid].Fetched? :: s.readers[pid].policy == p)
  {
    var p := rules.read(s.rows[version].document).value;
    var t := Apply(rules, Apply(rules, s, Activate(version)), Delete(del));
    TransactionsKeepOneActive(rules, s.rows, version, rules.defaultDocument);
    assert t.rows[version].active && t.rows[version].document == s.rows[version].document;
    TakesEffectExactly(rules, t, p);
  }

  /** The failing case is reachable with no delay and no fault at all: a reader that fetched the old
      policy before the activation caches it after the DEL. */
  lemma InvalidationOvertaken<D(!new), P(!new)>(rules: Rules<D, P>, rows: Table<D>, before: string, after: string)
    requires AtMostOneActive(rows) && before in rows && after in rows && before != after
    requires rows[before].active && Usable(rules, rows[before].document) && Usable(rules, rows[after].document)
    ensures var s0 := Apply(rules, Apply(rules, Initial<D, P>(rows), Begin(0)), Get(0, Works));
            var s1 := Apply(rules, Apply(rules, s0, Query(0, Works, Some(before))), Activate(after));
            var s2 := Apply(rules, Apply(rules, s1, Delete(Works)), SetEx(0, Works));
            var s3 := Apply(rules, Apply(rules, s2, Begin(1)), Get(1, Works));
            && s1.rows[after].active && !s1.rows[before].active
            && |s3.answers| == 2 && s3.answers[1].source == Cache
            && Some(s3.answers[1].policy) == rules.read(rows[before].document)
  {
    var a := Apply(rules, Initial<D, P>(rows), Begin(0));
    var s0 := Apply(rules, a, Get(0, Works));
    assert s0.readers[0] == Missed(0) && 0 !in s0.started;
    var b := Apply(rules, s0, Query(0, Works, Some(before)));
    assert b.readers[0].Fetched?;
    var s1 := Apply(rules, b, Activate(after));
    var c := Apply(rules, s1, Delete(Works));
    var s2 := Apply(rules, c, SetEx(0, Works));
    assert s2.cached.Some? && 1 !in s2.started && 1 !in s2.readers;
  }
}
