/** The diff of a campaign run against its baseline run, test id by test id. */
module Comparator {
  import opened Common
  import opened Collections
  import opened StableSort
  import opened Reporter

  datatype Regression = Regression(
    testId: string, category: string, severity: string, previous: Status, current: Status)

  datatype CategoryDelta = CategoryDelta(baselineRate: real, currentRate: real, delta: real, regressed: bool)

  datatype Comparison = Comparison(
    baselineRunId: Option<string>, baselineScore: Option<real>, currentScore: real, scoreDelta: real,
    regressionDetected: bool, newFailures: seq<string>, newErrors: seq<string>, resolved: seq<string>,
    categoriesRegressed: seq<string>, categoryDeltas: map<string, CategoryDelta>, regressions: seq<Regression>,
    added: seq<string>, removed: seq<string>)

  type Index = map<string, TestResult>

  // A dictionary by test id: the last result of an id wins, blank ids are dropped.
  function IndexOf(results: seq<TestResult>): Index {
    if results == [] then map[]
    else
      var r := results[|results| - 1];
      var init := IndexOf(results[..|results| - 1]);
      if r.testId == "" then init else init[r.testId := r]
  }

  // Its keys in insertion order.
  function Ids(results: seq<TestResult>): seq<string> {
    if results == [] then []
    else
      var r := results[|results| - 1];
      var init := Ids(results[..|results| - 1]);
      if r.testId == "" || r.testId in init then init else init + [r.testId]
  }

  predicate Bad(s: Status) { s == FAIL || s == ERROR }

  predicate Regressed(base: Index, curr: Index, id: string) {
    id in base && id in curr && base[id].status == PASS && Bad(curr[id].status)
  }

  predicate Recovered(base: Index, curr: Index, id: string) {
    id in base && id in curr && Bad(base[id].status) && curr[id].status == PASS
  }

  function Select(ids: seq<string>, which: string -> bool): seq<string> {
    if ids == [] then []
    else Select(ids[..|ids| - 1], which) + (if which(ids[|ids| - 1]) then [ids[|ids| - 1]] else [])
  }

  function NewFailure(base: Index, curr: Index): string -> bool {
    id => Regressed(base, curr, id) && curr[id].status == FAIL
  }

  function NewError(base: Index, curr: Index): string -> bool {
    id => Regressed(base, curr, id) && curr[id].status == ERROR
  }

  function IsResolved(base: Index, curr: Index): string -> bool { id => Recovered(base, curr, id) }

  function NotIn(m: Index): string -> bool { id => id !in m }

  function Regressions(base: Index, curr: Index, ids: seq<string>): seq<Regression> {
    if ids == [] then []
    else
      var id := ids[|ids| - 1];
      Regressions(base, curr, ids[..|ids| - 1])
      + (if Regressed(base, curr, id)
         then [Regression(id, curr[id].category, curr[id].severity, base[id].status, curr[id].status)] else [])
  }

  // The categories of the regressed tests, each once.
  function RegressedCategories(base: Index, curr: Index, ids: seq<string>): seq<string> {
    if ids == [] then []
    else
      var id := ids[|ids| - 1];
      var init := RegressedCategories(base, curr, ids[..|ids| - 1]);
      if Regressed(base, curr, id) && curr[id].category !in init then init + [curr[id].category] else init
  }

  // Pass rate over every result of the category, skipped ones included.
  function PassRate(results: seq<TestResult>): real {
    Rate(Count(results, PASS), |results|)
  }

  function DeltaOf(current: seq<TestResult>, baseline: seq<TestResult>, category: string, regressed: seq<string>)
    : CategoryDelta
  {
    var c, b := PassRate(InCategory(current, category)), PassRate(InCategory(baseline, category));
    CategoryDelta(b, c, c - b, c - b < 0.0 || category in regressed)
  }

  function Deltas(current: seq<TestResult>, baseline: seq<TestResult>, regressed: seq<string>)
    : map<string, CategoryDelta>
  {
    map c | c in Categories(current + baseline) && c != "" :: DeltaOf(current, baseline, c, regressed)
  }

  function EffectiveScore(baseline: seq<TestResult>, given: Option<real>): real {
    match given
    case Some(score) => score
    case None => Rate(Count(baseline, PASS), Count(baseline, PASS) + Count(baseline, FAIL) + Count(baseline, ERROR))
  }

  function TestIds(results: seq<TestResult>): seq<string> {
    seq(|results|, i requires 0 <= i < |results| => results[i].testId)
  }

  // `compare_runs_with_baseline`, unrounded.
  function Diff(current: seq<TestResult>, currentScore: real, baselineRunId: Option<string>,
                baseline: seq<TestResult>, baselineScore: Option<real>): Comparison
  {
    if baseline == [] || baselineRunId.None? then
      Comparison(None, None, currentScore, 0.0, false, [], [], [], [], map[], [], TestIds(current), [])
    else
      var base, curr, ids := IndexOf(baseline), IndexOf(current), Ids(current);
      var score := EffectiveScore(baseline, baselineScore);
      var regressions := Regressions(base, curr, ids);
      var categories := RegressedCategories(base, curr, ids);
      Comparison(
        baselineRunId, Some(score), currentScore, currentScore - score, regressions != [],
        SortStrings(Select(ids, NewFailure(base, curr))),
        SortStrings(Select(ids, NewError(base, curr))),
        SortStrings(Select(ids, IsResolved(base, curr))),
        SortStrings(categories),
        Deltas(current, baseline, categories),
        regressions,
        SortStrings(Select(ids, NotIn(base))),
        SortStrings(Select(Ids(baseline), NotIn(curr))))
  }

  // ----- The source's loops -----

  method BuildIndex(results: seq<TestResult>) returns (ids: seq<string>, index: Index)
    ensures ids == Ids(results) && index == IndexOf(results)
  {
    ids, index := [], map[];
    for i := 0 to |results|
      invariant ids == Ids(results[..i]) && index == IndexOf(results[..i])
    {
      assert results[..i + 1][..i] == results[..i];
      var r := results[i];
      if r.testId != "" {
        if r.testId !in ids {
          ids := ids + [r.testId];
        }
        index := index[r.testId := r];
      }
    }
    assert results[..|results|] == results;
  }

  method CompareTests(base: Index, curr: Index, ids: seq<string>)
    returns (newFailures: seq<string>, newErrors: seq<string>, resolved: seq<string>,
             categories: seq<string>, regressions: seq<Regression>)
    requires forall i | 0 <= i < |ids| :: ids[i] in curr
    ensures newFailures == Select(ids, NewFailure(base, curr)) && newErrors == Select(ids, NewError(base, curr))
    ensures resolved == Select(ids, IsResolved(base, curr))
    ensures categories == RegressedCategories(base, curr, ids) && regressions == Regressions(base, curr, ids)
  {
    newFailures, newErrors, resolved, categories, regressions := [], [], [], [], [];
    for i := 0 to |ids|
      invariant newFailures == Select(ids[..i], NewFailure(base, curr))
      invariant newErrors == Select(ids[..i], NewError(base, curr))
      invariant resolved == Select(ids[..i], IsResolved(base, curr))
      invariant categories == RegressedCategories(base, curr, ids[..i])
      invariant regressions == Regressions(base, curr, ids[..i])
    {
      assert ids[..i + 1][..i] == ids[..i];
      var id := ids[i];
      var current := curr[id];
      if id in base {
        var before := base[id];
        if before.status == PASS && (current.status == FAIL || current.status == ERROR) {
          if current.status == FAIL {
            newFailures := newFailures + [id];
          } else {
            newErrors := newErrors + [id];
          }
          if current.category !in categories {
            categories := categories + [current.category];
          }
          regressions := regressions
                         + [Regression(id, current.category, current.severity, before.status, current.status)];
        } else if (before.status == FAIL || before.status == ERROR) && current.status == PASS {
          resolved := resolved + [id];
        }
      }
    }
    assert ids[..|ids|] == ids;
  }

  method SelectIds(ids: seq<string>, other: Index) returns (r: seq<string>)
    ensures r == Select(ids, NotIn(other))
  {
    r := [];
    for i := 0 to |ids|
      invariant r == Select(ids[..i], NotIn(other))
    {
      assert ids[..i + 1][..i] == ids[..i];
      if ids[i] !in other {
        r := r + [ids[i]];
      }
    }
    assert ids[..|ids|] == ids;
  }

  method CompareCategory(current: seq<TestResult>, baseline: seq<TestResult>, category: string, regressed: seq<string>)
    returns (d: CategoryDelta)
    ensures d == DeltaOf(current, baseline, category, regressed)
  {
    var mine := InCategory(current, category);
    var theirs := InCategory(baseline, category);
    var passedNow := CountStatus(mine, PASS);
    var passedBefore := CountStatus(theirs, PASS);
    var now := if |mine| > 0 then passedNow as real / |mine| as real * 100.0 else 0.0;
    var before := if |theirs| > 0 then passedBefore as real / |theirs| as real * 100.0 else 0.0;
    d := CategoryDelta(before, now, now - before, now - before < 0.0 || category in regressed);
  }

  method ComputeBaselineScore(baseline: seq<TestResult>, given: Option<real>) returns (score: real)
    ensures score == EffectiveScore(baseline, given)
  {
    match given {
      case Some(value) => score := value;
      case None =>
        var p := CountStatus(baseline, PASS);
        var f := CountStatus(baseline, FAIL);
        var e := CountStatus(baseline, ERROR);
        score := Rate(p, p + f + e);
    }
  }

  method CompareCategories(current: seq<TestResult>, baseline: seq<TestResult>, regressed: seq<string>)
    returns (deltas: map<string, CategoryDelta>)
    ensures deltas == Deltas(current, baseline, regressed)
  {
    var all := Categories(current + baseline);
    deltas := map[];
    for i := 0 to |all|
      invariant deltas == map c | c in all[..i] && c != "" :: DeltaOf(current, baseline, c, regressed)
    {
      assert forall c :: c in all[..i + 1] <==> c in all[..i] || c == all[i];
      if all[i] != "" {
        var delta := CompareCategory(current, baseline, all[i], regressed);
        deltas := deltas[all[i] := delta];
      }
    }
    assert all[..|all|] == all;
  }

  // `compare_runs_with_baseline`
  method CompareRunsWithBaseline(current: seq<TestResult>, currentScore: real, baselineRunId: Option<string>,
                                 baseline: seq<TestResult>, baselineScore: Option<real>) returns (c: Comparison)
    ensures c == Diff(current, currentScore, baselineRunId, baseline, baselineScore)
  {
    if baseline == [] || baselineRunId.None? {
      return Comparison(None, None, currentScore, 0.0, false, [], [], [], [], map[], [], TestIds(current), []);
    }
    var baseIds, base := BuildIndex(baseline);
    var ids, curr := BuildIndex(current);
    IdsAreKeys(current);
    var score := ComputeBaselineScore(baseline, baselineScore);
    var newFailures, newErrors, resolved, categories, regressions := CompareTests(base, curr, ids);
    var added := SelectIds(ids, base);
    var removed := SelectIds(baseIds, curr);
    var deltas := CompareCategories(current, baseline, categories);
    c := Comparison(
      baselineRunId, Some(score), currentScore, currentScore - score, |regressions| > 0,
      SortStrings(newFailures), SortStrings(newErrors), SortStrings(resolved), SortStrings(categories),
      deltas, regressions, SortStrings(added), SortStrings(removed));
  }

  // ----- Indexes -----

  lemma {:induction false} IdsAreKeys(results: seq<TestResult>)
    ensures NoDuplicates(Ids(results))
    ensures forall id :: id in Ids(results) <==> id in IndexOf(results)
  {
    if results != [] { IdsAreKeys(results[..|results| - 1]); }
  }

  lemma {:induction false} SelectMembers(ids: seq<string>, which: string -> bool)
    requires NoDuplicates(ids)
    ensures NoDuplicates(Select(ids, which))
    ensures forall id :: id in Select(ids, which) <==> id in ids && which(id)
  {
    if ids != [] {
      SelectMembers(ids[..|ids| - 1], which);
      assert forall id :: id in ids <==> id in ids[..|ids| - 1] || id == ids[|ids| - 1];
    }
  }

  lemma SortedSelection(ids: seq<string>, which: string -> bool)
    requires NoDuplicates(ids)
    ensures NoDuplicates(SortStrings(Select(ids, which)))
    ensures forall id :: id in SortStrings(Select(ids, which)) <==> id in ids && which(id)
    ensures |SortStrings(Select(ids, which))| == |Select(ids, which)|
  {
    SelectMembers(ids, which);
    SortStringsKeeps(Select(ids, which));
    DistinctByMultiset(Select(ids, which), SortStrings(Select(ids, which)));
  }

  /** Every list of the comparison holds exactly the test ids its name promises, each once; a
      regression row is recorded for exactly the new failures and new errors. */
  lemma DiffIsExact(current: seq<TestResult>, currentScore: real, runId: string, baseline: seq<TestResult>,
                    baselineScore: Option<real>)
    requires baseline != []
    ensures var c := Diff(current, currentScore, Some(runId), baseline, baselineScore);
            var base, curr := IndexOf(baseline), IndexOf(current);
            && (forall id :: id in c.newFailures <==>
                  id in base && id in curr && base[id].status == PASS && curr[id].status == FAIL)
            && (forall id :: id in c.newErrors <==>
                  id in base && id in curr && base[id].status == PASS && curr[id].status == ERROR)
            && (forall id :: id in c.resolved <==>
                  && id in base && id in curr
                  && (base[id].status == FAIL || base[id].status == ERROR) && curr[id].status == PASS)
            && (forall id :: id in c.added <==> id in curr && id !in base)
            && (forall id :: id in c.removed <==> id in base && id !in curr)
            && NoDuplicates(c.newFailures) && NoDuplicates(c.newErrors) && NoDuplicates(c.resolved)
            && NoDuplicates(c.added) && NoDuplicates(c.removed)
            && |c.regressions| == |c.newFailures| + |c.newErrors|
            && (c.regressionDetected <==> exists id :: Regressed(base, curr, id))
  {
    var base, curr, ids := IndexOf(baseline), IndexOf(current), Ids(current);
    IdsAreKeys(current);
    IdsAreKeys(baseline);
    SortedSelection(ids, NewFailure(base, curr));
    SortedSelection(ids, NewError(base, curr));
    SortedSelection(ids, IsResolved(base, curr));
    SortedSelection(ids, NotIn(base));
    SortedSelection(Ids(baseline), NotIn(curr));
    RegressionCount(base, curr, ids);
    var c := Diff(current, currentScore, Some(runId), baseline, baselineScore);
    if id :| Regressed(base, curr, id) {
      assert id in c.newFailures || id in c.newErrors;
    }
    if c.regressionDetected {
      assert c.newFailures != [] ==> c.newFailures[0] in c.newFailures;
      assert c.newErrors != [] ==> c.newErrors[0] in c.newErrors;
    }
  }

  // ----- What the comparison says -----

  predicate IsRow(base: Index, curr: Index, r: Regression) {
    && r.testId in base && r.testId in curr
    && r.previous == PASS && base[r.testId].status == PASS
    && r.current == curr[r.testId].status && (r.current == FAIL || r.current == ERROR)
    && r.category == curr[r.testId].category && r.severity == curr[r.testId].severity
  }

  predicate AreRows(base: Index, curr: Index, ids: seq<string>, rows: seq<Regression>) {
    && (forall k | 0 <= k < |rows| :: IsRow(base, curr, rows[k]) && rows[k].testId in ids)
    && (forall j, k | 0 <= j < k < |rows| :: rows[j].testId != rows[k].testId)
  }

  lemma OneMoreRow(base: Index, curr: Index, ids: seq<string>, last: string, rows: seq<Regression>)
    requires AreRows(base, curr, ids, rows) && last !in ids && Regressed(base, curr, last)
    ensures var r := Regression(last, curr[last].category, curr[last].severity, base[last].status, curr[last].status);
            AreRows(base, curr, ids + [last], rows + [r])
  {
  }

  lemma {:induction false} RowsAreRows(base: Index, curr: Index, ids: seq<string>)
    requires NoDuplicates(ids)
    ensures AreRows(base, curr, ids, Regressions(base, curr, ids))
  {
    if ids != [] {
      var init, last := ids[..|ids| - 1], ids[|ids| - 1];
      RowsAreRows(base, curr, init);
      assert ids == init + [last] && last !in init;
      if Regressed(base, curr, last) {
        OneMoreRow(base, curr, init, last, Regressions(base, curr, init));
      }
    }
  }

  lemma {:induction false} RowsCover(base: Index, curr: Index, ids: seq<string>, id: string) returns (k: nat)
    requires id in ids && Regressed(base, curr, id)
    ensures k < |Regressions(base, curr, ids)| && Regressions(base, curr, ids)[k].testId == id
  {
    var init, last := ids[..|ids| - 1], ids[|ids| - 1];
    if id == last {
      k := |Regressions(base, curr, ids)| - 1;
    } else {
      k := RowsCover(base, curr, init, id);
    }
  }

  predicate HasRow(rows: seq<Regression>, id: string) {
    exists k | 0 <= k < |rows| :: rows[k].testId == id
  }

  lemma RowsForRegressed(base: Index, curr: Index, ids: seq<string>)
    requires NoDuplicates(ids) && forall id :: id in ids <==> id in curr
    ensures AreRows(base, curr, ids, Regressions(base, curr, ids))
    ensures forall id :: HasRow(Regressions(base, curr, ids), id) <==> Regressed(base, curr, id)
  {
    RowsAreRows(base, curr, ids);
    forall id | Regressed(base, curr, id)
      ensures HasRow(Regressions(base, curr, ids), id)
    {
      var k := RowsCover(base, curr, ids, id);
    }
  }

  /** Each regression row names a test that passed in the baseline and fails or errs now, says which, and
      carries the current category and severity; there is one row for each test listed as a new failure
      or a new error, and no other. */
  lemma RegressionRowsAreExact(current: seq<TestResult>, currentScore: real, runId: string,
                               baseline: seq<TestResult>, baselineScore: Option<real>)
    requires baseline != []
    ensures var c := Diff(current, currentScore, Some(runId), baseline, baselineScore);
            var base, curr := IndexOf(baseline), IndexOf(current);
            && (forall k | 0 <= k < |c.regressions| :: IsRow(base, curr, c.regressions[k]))
            && (forall j, k | 0 <= j < k < |c.regressions| :: c.regressions[j].testId != c.regressions[k].testId)
            && (forall id :: id in c.newFailures || id in c.newErrors <==> HasRow(c.regressions, id))
  {
    var base, curr, ids := IndexOf(baseline), IndexOf(current), Ids(current);
    IdsAreKeys(current);
    RowsForRegressed(base, curr, ids);
    DiffIsExact(current, currentScore, runId, baseline, baselineScore);
  }

  // Some test of the category passed in the baseline and fails or errs now.
  ghost predicate HasRegressed(base: Index, curr: Index, category: string) {
    exists id :: id in base && id in curr && base[id].status == PASS
                 && (curr[id].status == FAIL || curr[id].status == ERROR) && curr[id].category == category
  }

  lemma {:induction false} CategoriesOfRegressed(base: Index, curr: Index, ids: seq<string>)
    ensures NoDuplicates(RegressedCategories(base, curr, ids))
    ensures forall c :: c in RegressedCategories(base, curr, ids) <==>
                        exists id | id in ids :: Regressed(base, curr, id) && curr[id].category == c
  {
    if ids != [] {
      var init, last := ids[..|ids| - 1], ids[|ids| - 1];
      CategoriesOfRegressed(base, curr, init);
      assert forall id :: id in ids <==> id in init || id == last;
    }
  }

  /** The categories said to have regressed are those of the tests that did, each once and in order. */
  lemma RegressedCategoriesAreExact(current: seq<TestResult>, currentScore: real, runId: string,
                                    baseline: seq<TestResult>, baselineScore: Option<real>)
    requires baseline != []
    ensures var c := Diff(current, currentScore, Some(runId), baseline, baselineScore);
            var base, curr := IndexOf(baseline), IndexOf(current);
            && NoDuplicates(c.categoriesRegressed) && Ascending(c.categoriesRegressed)
            && (forall x :: x in c.categoriesRegressed <==> HasRegressed(base, curr, x))
  {
    var base, curr, ids := IndexOf(baseline), IndexOf(current), Ids(current);
    var categories := RegressedCategories(base, curr, ids);
    IdsAreKeys(current);
    CategoriesOfRegressed(base, curr, ids);
    SortStringsKeeps(categories);
    SortStringsAscend(categories);
    DistinctByMultiset(categories, SortStrings(categories));
    AnyRegressed(base, curr, ids);
  }

  lemma AnyRegressed(base: Index, curr: Index, ids: seq<string>)
    requires forall id :: id in ids <==> id in curr
    ensures forall x :: HasRegressed(base, curr, x)
                        <==> exists id | id in ids :: Regressed(base, curr, id) && curr[id].category == x
  {
    forall x
      ensures HasRegressed(base, curr, x)
              <==> exists id | id in ids :: Regressed(base, curr, id) && curr[id].category == x
    {
      if HasRegressed(base, curr, x) {
        var id :| id in base && id in curr && base[id].status == PASS
                  && (curr[id].status == FAIL || curr[id].status == ERROR) && curr[id].category == x;
        assert id in ids && Regressed(base, curr, id);
      }
    }
  }

  /** The lists of ids come in order. */
  lemma ListsAscend(current: seq<TestResult>, currentScore: real, runId: string, baseline: seq<TestResult>,
                    baselineScore: Option<real>)
    requires baseline != []
    ensures var c := Diff(current, currentScore, Some(runId), baseline, baselineScore);
            && Ascending(c.newFailures) && Ascending(c.newErrors) && Ascending(c.resolved)
            && Ascending(c.added) && Ascending(c.removed)
  {
    var base, curr, ids := IndexOf(baseline), IndexOf(current), Ids(current);
    SortStringsAscend(Select(ids, NewFailure(base, curr)));
    SortStringsAscend(Select(ids, NewError(base, curr)));
    SortStringsAscend(Select(ids, IsResolved(base, curr)));
    SortStringsAscend(Select(ids, NotIn(base)));
    SortStringsAscend(Select(Ids(baseline), NotIn(curr)));
  }

  // Passing results of a category in percent of all its results, 0 without any.
  function Percent(results: seq<TestResult>, category: string): real {
    var all := InCategory(results, category);
    if all == [] then 0.0 else Count(all, PASS) as real / |all| as real * 100.0
  }

  /** There is a delta for exactly the named categories of either run. It goes from the baseline's pass
      rate to the current one, and says regressed if the rate fell or a test of the category regressed. */
  lemma DeltasAreExact(current: seq<TestResult>, currentScore: real, runId: string, baseline: seq<TestResult>,
                       baselineScore: Option<real>, x: string)
    requires baseline != []
    ensures var c := Diff(current, currentScore, Some(runId), baseline, baselineScore);
            && (x in c.categoryDeltas <==> x != "" && exists r | r in current + baseline :: r.category == x)
            && (x in c.categoryDeltas ==>
                  var d := c.categoryDeltas[x];
                  && d.baselineRate == Percent(baseline, x) && d.currentRate == Percent(current, x)
                  && d.delta == Percent(current, x) - Percent(baseline, x)
                  && (d.regressed <==> Percent(current, x) < Percent(baseline, x) || x in c.categoriesRegressed))
  {
    CategoriesAreNamed(current + baseline, x);
    SortStringsKeeps(RegressedCategories(IndexOf(baseline), IndexOf(current), Ids(current)));
    PercentIsRate(current, x);
    PercentIsRate(baseline, x);
  }

  lemma PercentIsRate(results: seq<TestResult>, x: string)
    ensures Percent(results, x) == PassRate(InCategory(results, x))
  {
  }

  lemma {:induction false} CategoriesAreNamed(results: seq<TestResult>, x: string)
    ensures x in Categories(results) <==> exists r | r in results :: r.category == x
  {
    if results != [] {
      CategoriesAreNamed(results[..|results| - 1], x);
      assert forall r :: r in results <==> r in results[..|results| - 1] || r == results[|results| - 1];
    }
  }

  /** The scores of a comparison, and the whole of it when there is no baseline to compare with. */
  lemma ScoresAreExact(current: seq<TestResult>, currentScore: real, runId: Option<string>,
                       baseline: seq<TestResult>, given: Option<real>)
    ensures var c := Diff(current, currentScore, runId, baseline, given);
            && c.currentScore == currentScore
            && (if baseline == [] || runId.None? then
                  && c.baselineRunId.None? && c.baselineScore.None? && c.scoreDelta == 0.0 && !c.regressionDetected
                  && c.newFailures == c.newErrors == c.resolved == c.categoriesRegressed == c.removed == []
                  && c.categoryDeltas == map[] && c.regressions == []
                  && |c.added| == |current| && forall i | 0 <= i < |current| :: c.added[i] == current[i].testId
                else
                  && c.baselineRunId == runId && c.baselineScore.Some?
                  && c.scoreDelta == currentScore - c.baselineScore.value
                  && (given.Some? ==> c.baselineScore == given)
                  && (given.None? ==> c.baselineScore.value == EvaluatedScore(baseline)))
  {
  }

  // Passing results in percent of those that passed, failed or erred.
  function EvaluatedScore(results: seq<TestResult>): real {
    var n := Count(results, PASS) + Count(results, FAIL) + Count(results, ERROR);
    if n == 0 then 0.0 else Count(results, PASS) as real / n as real * 100.0
  }

  lemma {:induction false} RegressionCount(base: Index, curr: Index, ids: seq<string>)
    ensures |Regressions(base, curr, ids)| ==
            |Select(ids, NewFailure(base, curr))| + |Select(ids, NewError(base, curr))|
  {
    if ids != [] { RegressionCount(base, curr, ids[..|ids| - 1]); }
  }

  // ----- The conservation law -----

  function Passing(m: Index): set<string> { set id | id in m && m[id].status == PASS }

  function RegressedSet(base: Index, curr: Index): set<string> { set id | id in curr && Regressed(base, curr, id) }

  function RecoveredSet(base: Index, curr: Index): set<string> { set id | id in curr && Recovered(base, curr, id) }

  // Passing tests that only this side has.
  function PassingOnlyIn(m: Index, other: Index): set<string> {
    set id | id in m && id !in other && m[id].status == PASS
  }

  // Tests that pass on this side and were skipped on the other.
  function PassingWhereSkipped(m: Index, other: Index): set<string> {
    set id | id in m && id in other && m[id].status == PASS && other[id].status == SKIPPED
  }

  // s is split into a, b, c and d as far as id is concerned.
  predicate InOnePart(s: set<string>, a: set<string>, b: set<string>, c: set<string>, d: set<string>, id: string) {
    && (id in s <==> id in a || id in b || id in c || id in d)
    && !(id in a && id in b) && !((id in a || id in b) && id in c) && !((id in a || id in b || id in c) && id in d)
  }

  lemma CountByParts(s: set<string>, a: set<string>, b: set<string>, c: set<string>, d: set<string>)
    requires forall id :: InOnePart(s, a, b, c, d, id)
    ensures |s| == |a| + |b| + |c| + |d|
  {
    forall id
      ensures id in s <==> id in a + b + c + d
      ensures id !in a * b && id !in (a + b) * c && id !in (a + b + c) * d
    {
      assert InOnePart(s, a, b, c, d, id);
    }
    assert s == a + b + c + d && a !! b && (a + b) !! c && (a + b + c) !! d;
  }

  lemma SplitPassing(m: Index, other: Index)
    ensures |Passing(m)| ==
            |RecoveredSet(other, m)| + |PassingOnlyIn(m, other)| + |PassingWhereSkipped(m, other)|
            + |Passing(m) * Passing(other)|
  {
    var a, b, c, d := RecoveredSet(other, m), PassingOnlyIn(m, other), PassingWhereSkipped(m, other),
        Passing(m) * Passing(other);
    forall id
      ensures InOnePart(Passing(m), a, b, c, d, id)
    {
      PassingPart(m, other, id);
    }
    CountByParts(Passing(m), a, b, c, d);
  }

  lemma PassingPart(m: Index, other: Index, id: string)
    ensures InOnePart(Passing(m), RecoveredSet(other, m), PassingOnlyIn(m, other), PassingWhereSkipped(m, other),
                      Passing(m) * Passing(other), id)
  {
    if id in m && id in other {
      var s := other[id].status;
      assert s == PASS || s == FAIL || s == ERROR || s == SKIPPED;
    }
  }

  lemma RegressedIsRecoveredBackwards(base: Index, curr: Index)
    ensures RegressedSet(base, curr) == RecoveredSet(curr, base)
  {
  }

  /** The change in the number of passing tests is what was resolved minus what regressed, plus the
      passing tests only one run has and the passing tests the other run skipped. */
  lemma Conservation(base: Index, curr: Index)
    ensures |Passing(curr)| - |Passing(base)| ==
            (|RecoveredSet(base, curr)| - |RegressedSet(base, curr)|)
            + (|PassingOnlyIn(curr, base)| - |PassingOnlyIn(base, curr)|)
            + (|PassingWhereSkipped(curr, base)| - |PassingWhereSkipped(base, curr)|)
  {
    SplitPassing(curr, base);
    SplitPassing(base, curr);
    RegressedIsRecoveredBackwards(base, curr);
    assert Passing(curr) * Passing(base) == Passing(base) * Passing(curr);
  }

  function RegressedTo(base: Index, curr: Index, status: Status): set<string> {
    set id | id in curr && Regressed(base, curr, id) && curr[id].status == status
  }

  lemma RegressedSplits(base: Index, curr: Index)
    ensures |RegressedSet(base, curr)| == |RegressedTo(base, curr, FAIL)| + |RegressedTo(base, curr, ERROR)|
  {
    assert RegressedSet(base, curr) == RegressedTo(base, curr, FAIL) + RegressedTo(base, curr, ERROR);
  }

  /** The lists of the comparison are counted by the sets of the law. */
  lemma DiffCounts(current: seq<TestResult>, currentScore: real, runId: string, baseline: seq<TestResult>,
                   baselineScore: Option<real>)
    requires baseline != []
    ensures var c := Diff(current, currentScore, Some(runId), baseline, baselineScore);
            var base, curr := IndexOf(baseline), IndexOf(current);
            && |c.resolved| == |RecoveredSet(base, curr)|
            && |c.newFailures| + |c.newErrors| == |RegressedSet(base, curr)|
  {
    var c := Diff(current, currentScore, Some(runId), baseline, baselineScore);
    var base, curr := IndexOf(baseline), IndexOf(current);
    DiffIsExact(current, currentScore, runId, baseline, baselineScore);
    DistinctCount(c.resolved, RecoveredSet(base, curr));
    var f, e := RegressedTo(base, curr, FAIL), RegressedTo(base, curr, ERROR);
    DistinctCount(c.newFailures, f);
    DistinctCount(c.newErrors, e);
    RegressedSplits(base, curr);
  }

  predicate UniqueIds(results: seq<TestResult>) {
    && (forall i | 0 <= i < |results| :: results[i].testId != "")
    && (forall i, j | 0 <= i < j < |results| :: results[i].testId != results[j].testId)
  }

  lemma {:induction false} IndexAbsent(results: seq<TestResult>, id: string)
    requires forall i | 0 <= i < |results| :: results[i].testId != id
    ensures id !in IndexOf(results)
  {
    if results != [] { IndexAbsent(results[..|results| - 1], id); }
  }

  // With unique ids the index counts what the list counts.
  lemma {:induction false} UniqueIndex(results: seq<TestResult>)
    requires UniqueIds(results)
    ensures |IndexOf(results)| == |results|
    ensures |Passing(IndexOf(results))| == Count(results, PASS)
  {
    if results != [] {
      var init, last := results[..|results| - 1], results[|results| - 1];
      UniqueIndex(init);
      IndexAbsent(init, last.testId);
      assert Passing(IndexOf(results)) ==
             Passing(IndexOf(init)) + (if last.status == PASS then {last.testId} else {});
    }
  }

  predicate NoneSkipped(results: seq<TestResult>) {
    forall i | 0 <= i < |results| :: results[i].status != SKIPPED
  }

  lemma {:induction false} NoneSkippedCount(results: seq<TestResult>)
    requires NoneSkipped(results)
    ensures Count(results, SKIPPED) == 0
  {
    if results != [] { NoneSkippedCount(results[..|results| - 1]); }
  }

  lemma {:induction false} NoneSkippedIndex(results: seq<TestResult>)
    requires NoneSkipped(results)
    ensures forall id | id in IndexOf(results) :: IndexOf(results)[id].status != SKIPPED
  {
    if results != [] { NoneSkippedIndex(results[..|results| - 1]); }
  }

  // Same unique test ids on both sides, and nothing skipped.
  predicate Comparable(a: seq<TestResult>, b: seq<TestResult>) {
    && UniqueIds(a) && UniqueIds(b) && NoneSkipped(a) && NoneSkipped(b)
    && IndexOf(a).Keys == IndexOf(b).Keys
  }

  function Balance(baseline: seq<TestResult>, current: seq<TestResult>): int {
    |RecoveredSet(IndexOf(baseline), IndexOf(current))| - |RegressedSet(IndexOf(baseline), IndexOf(current))|
  }

  lemma ComparableBalance(baseline: seq<TestResult>, current: seq<TestResult>)
    requires Comparable(baseline, current)
    ensures |baseline| == |current|
    ensures Count(current, PASS) - Count(baseline, PASS) == Balance(baseline, current)
  {
    var base, curr := IndexOf(baseline), IndexOf(current);
    UniqueIndex(baseline);
    UniqueIndex(current);
    NoneSkippedIndex(baseline);
    NoneSkippedIndex(current);
    Conservation(base, curr);
    assert |base.Keys| == |base| && |curr.Keys| == |curr|;
    assert PassingOnlyIn(curr, base) == {} && PassingOnlyIn(base, curr) == {};
    assert PassingWhereSkipped(curr, base) == {} && PassingWhereSkipped(base, curr) == {};
  }

  // x tests out of n, in percentage points.
  function Points(x: int, n: nat): real
    requires n > 0
  {
    100.0 * x as real / n as real
  }

  /** On equal test ids with nothing skipped, the score delta is 100 * (resolved - regressed) / N. */
  lemma ScoreDeltaIsBalance(baseline: seq<TestResult>, current: seq<TestResult>, runId: string)
    requires Comparable(baseline, current) && baseline != []
    ensures |current| == |baseline|
    ensures var c := Diff(current, Score(current), Some(runId), baseline, Some(Score(baseline)));
            && |c.resolved| - |c.regressions| == Balance(baseline, current)
            && c.scoreDelta == Points(Balance(baseline, current), |current|)
  {
    ScoreFollowsBalance(baseline, current);
    DiffBalance(current, Score(current), runId, baseline, Score(baseline));
  }

  lemma ScoreFollowsBalance(baseline: seq<TestResult>, current: seq<TestResult>)
    requires Comparable(baseline, current) && baseline != []
    ensures |current| == |baseline|
    ensures Score(current) - Score(baseline) == Points(Balance(baseline, current), |current|)
  {
    ComparableBalance(baseline, current);
    ScoreDifference(baseline, current);
  }

  lemma DiffBalance(current: seq<TestResult>, currentScore: real, runId: string, baseline: seq<TestResult>, score: real)
    requires baseline != []
    ensures var c := Diff(current, currentScore, Some(runId), baseline, Some(score));
            && |c.resolved| - |c.regressions| == Balance(baseline, current)
            && c.scoreDelta == currentScore - score
  {
    DiffCounts(current, currentScore, runId, baseline, Some(score));
    DiffIsExact(current, currentScore, runId, baseline, Some(score));
  }

  lemma ScoreDifference(baseline: seq<TestResult>, current: seq<TestResult>)
    requires NoneSkipped(baseline) && NoneSkipped(current) && |baseline| == |current| > 0
    ensures Score(current) - Score(baseline) == Points(Count(current, PASS) - Count(baseline, PASS), |current|)
  {
    ScoreWithoutSkips(baseline);
    ScoreWithoutSkips(current);
    RatioDifference(Count(current, PASS), Count(baseline, PASS), |current|);
  }

  lemma ScoreWithoutSkips(results: seq<TestResult>)
    requires NoneSkipped(results) && results != []
    ensures Score(results) == Count(results, PASS) as real / |results| as real * 100.0
  {
    NoneSkippedCount(results);
  }

  lemma RatioDifference(a: nat, b: nat, n: nat)
    requires n > 0
    ensures a as real / n as real * 100.0 - b as real / n as real * 100.0 == Points(a - b, n)
  {
    var x, y, z := a as real, b as real, n as real;
    assert x / z - y / z == (x - y) / z;
    assert (x - y) / z * 100.0 == 100.0 * (x - y) / z;
  }

  /** Over three comparable runs the balances add up. */
  lemma BalanceTelescopes(a: seq<TestResult>, b: seq<TestResult>, c: seq<TestResult>)
    requires Comparable(a, b) && Comparable(b, c)
    ensures Balance(a, c) == Balance(a, b) + Balance(b, c)
  {
    ComparableBalance(a, b);
    ComparableBalance(b, c);
    ComparableBalance(a, c);
  }

  /** Swapping two non-empty runs swaps added with removed, and regressed with resolved. */
  lemma SwapMirrors(a: seq<TestResult>, b: seq<TestResult>, idA: string, idB: string)
    requires a != [] && b != []
    ensures var forward := Diff(b, Score(b), Some(idA), a, Some(Score(a)));
            var backward := Diff(a, Score(a), Some(idB), b, Some(Score(b)));
            && backward.added == forward.removed && backward.removed == forward.added
            && (forall id :: id in backward.resolved <==> id in forward.newFailures || id in forward.newErrors)
            && (forall id :: id in forward.resolved <==> id in backward.newFailures || id in backward.newErrors)
            && |backward.resolved| == |forward.regressions| && |forward.resolved| == |backward.regressions|
            && backward.scoreDelta == -forward.scoreDelta
  {
    DiffIsExact(b, Score(b), idA, a, Some(Score(a)));
    DiffIsExact(a, Score(a), idB, b, Some(Score(b)));
    DiffCounts(b, Score(b), idA, a, Some(Score(a)));
    DiffCounts(a, Score(a), idB, b, Some(Score(b)));
    RegressedIsRecoveredBackwards(IndexOf(a), IndexOf(b));
    RegressedIsRecoveredBackwards(IndexOf(b), IndexOf(a));
  }
}
