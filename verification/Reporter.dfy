/** Test results of a red-team run, their counts and score, and the per-category summaries. */
module Reporter {
  import opened Collections
  import opened StableSort

  datatype Status = PASS | FAIL | ERROR | SKIPPED

  datatype TestResult = TestResult(testId: string, status: Status, category: string, severity: string)

  datatype CategorySummary =
    CategorySummary(category: string, total: nat, passed: nat, failed: nat, errors: nat, skipped: nat, passRate: real)

  datatype Report = Report(
    total: nat, passed: nat, failed: nat, errors: nat, skipped: nat, score: real, categories: seq<CategorySummary>,
    critical: nat, high: nat, medium: nat, low: nat)

  function Count(results: seq<TestResult>, status: Status): nat {
    if results == [] then 0
    else Count(results[..|results| - 1], status) + (if results[|results| - 1].status == status then 1 else 0)
  }

  // passed / evaluated * 100, unrounded.
  function Rate(passed: nat, evaluated: nat): real {
    if evaluated > 0 then passed as real / evaluated as real * 100.0 else 0.0
  }

  lemma {:induction false} CountsAddUp(results: seq<TestResult>)
    ensures Count(results, PASS) + Count(results, FAIL) + Count(results, ERROR) + Count(results, SKIPPED) == |results|
  {
    if results != [] { CountsAddUp(results[..|results| - 1]); }
  }

  function Score(results: seq<TestResult>): real {
    CountsAddUp(results);
    Rate(Count(results, PASS), |results| - Count(results, SKIPPED))
  }

  // The results of one category, in order.
  function InCategory(results: seq<TestResult>, category: string): seq<TestResult> {
    if results == [] then []
    else InCategory(results[..|results| - 1], category)
         + (if results[|results| - 1].category == category then [results[|results| - 1]] else [])
  }

  // The distinct categories, in order of first appearance.
  function Categories(results: seq<TestResult>): seq<string> {
    if results == [] then []
    else
      var init := Categories(results[..|results| - 1]);
      if results[|results| - 1].category in init then init else init + [results[|results| - 1].category]
  }

  function Summary(results: seq<TestResult>, category: string): CategorySummary {
    CountsAddUp(results);
    CategorySummary(category, |results|, Count(results, PASS), Count(results, FAIL), Count(results, ERROR),
                    Count(results, SKIPPED), Score(results))
  }

  function Summaries(results: seq<TestResult>, categories: seq<string>): (r: seq<CategorySummary>)
    ensures |r| == |categories|
    ensures forall i | 0 <= i < |r| :: r[i] == Summary(InCategory(results, categories[i]), categories[i])
  {
    if categories == [] then []
    else Summaries(results, categories[..|categories| - 1])
         + [Summary(InCategory(results, categories[|categories| - 1]), categories[|categories| - 1])]
  }

  // ----- The source's loops -----

  method CountStatus(results: seq<TestResult>, status: Status) returns (n: nat)
    ensures n == Count(results, status)
  {
    n := 0;
    for i := 0 to |results|
      invariant n == Count(results[..i], status)
    {
      assert results[..i + 1][..i] == results[..i];
      if results[i].status == status {
        n := n + 1;
      }
    }
    assert results[..|results|] == results;
  }

  lemma OneMoreInCategory(results: seq<TestResult>)
    requires results != []
    ensures var init, last := results[..|results| - 1], results[|results| - 1];
            forall c :: InCategory(results, c) == InCategory(init, c) + (if c == last.category then [last] else [])
  {
  }

  // `categories_map.setdefault(r.category, []).append(r)`
  method GroupByCategory(results: seq<TestResult>) returns (order: seq<string>, groups: map<string, seq<TestResult>>)
    ensures order == Categories(results)
    ensures forall c :: c in groups <==> c in order
    ensures forall c | c in groups :: groups[c] == InCategory(results, c)
  {
    order, groups := [], map[];
    for i := 0 to |results|
      invariant order == Categories(results[..i])
      invariant forall c :: c in groups <==> c in order
      invariant forall c | c in groups :: groups[c] == InCategory(results[..i], c)
      invariant forall c | c !in groups :: InCategory(results[..i], c) == []
    {
      var r := results[i];
      OneMoreInCategory(results[..i + 1]);
      assert results[..i + 1][..i] == results[..i];
      if r.category !in groups {
        order := order + [r.category];
        groups := groups[r.category := []];
      }
      groups := groups[r.category := groups[r.category] + [r]];
    }
    assert results[..|results|] == results;
  }

  method Summarize(category: string, group: seq<TestResult>) returns (summary: CategorySummary)
    ensures summary == Summary(group, category)
  {
    var p := CountStatus(group, PASS);
    var f := CountStatus(group, FAIL);
    var e := CountStatus(group, ERROR);
    var s := CountStatus(group, SKIPPED);
    CountsAddUp(group);
    summary := CategorySummary(category, |group|, p, f, e, s, Rate(p, |group| - s));
  }

  method SummarizeAll(results: seq<TestResult>, sorted: seq<string>, groups: map<string, seq<TestResult>>)
    returns (summaries: seq<CategorySummary>)
    requires forall i | 0 <= i < |sorted| :: sorted[i] in groups && groups[sorted[i]] == InCategory(results, sorted[i])
    ensures summaries == Summaries(results, sorted)
  {
    summaries := [];
    for i := 0 to |sorted|
      invariant summaries == Summaries(results, sorted[..i])
    {
      assert sorted[..i + 1][..i] == sorted[..i];
      var summary := Summarize(sorted[i], groups[sorted[i]]);
      summaries := summaries + [summary];
    }
    assert sorted[..|sorted|] == sorted;
  }

  method SummarizeByCategory(results: seq<TestResult>) returns (summaries: seq<CategorySummary>)
    ensures summaries == Summaries(results, SortStrings(Categories(results)))
  {
    var order, groups := GroupByCategory(results);
    var sorted := SortStrings(order);
    SortStringsKeeps(order);
    forall i | 0 <= i < |sorted|
      ensures sorted[i] in groups
    {
      assert sorted[i] in sorted;
    }
    summaries := SummarizeAll(results, sorted, groups);
  }

  // How many findings have a severity; `severities` lists the findings' own.
  method TallySeverity(severities: seq<string>, severity: string) returns (n: nat)
    ensures n == multiset(severities)[severity]
  {
    n := 0;
    for i := 0 to |severities|
      invariant n == multiset(severities[..i])[severity]
    {
      assert severities[..i + 1] == severities[..i] + [severities[i]];
      if severities[i] == severity {
        n := n + 1;
      }
    }
    assert severities[..|severities|] == severities;
  }

  // `generate_security_report`
  method GenerateSecurityReport(results: seq<TestResult>, severities: seq<string>) returns (r: Report)
    ensures r.total == |results| == r.passed + r.failed + r.errors + r.skipped
    ensures r.passed == Count(results, PASS) && r.failed == Count(results, FAIL)
    ensures r.errors == Count(results, ERROR) && r.skipped == Count(results, SKIPPED)
    ensures r.score == Rate(r.passed, r.passed + r.failed + r.errors) == Score(results)
    ensures r.categories == Summaries(results, SortStrings(Categories(results)))
    ensures r.critical == multiset(severities)["CRITICAL"] && r.high == multiset(severities)["HIGH"]
    ensures r.medium == multiset(severities)["MEDIUM"] && r.low == multiset(severities)["LOW"]
  {
    var critical := TallySeverity(severities, "CRITICAL");
    var high := TallySeverity(severities, "HIGH");
    var medium := TallySeverity(severities, "MEDIUM");
    var low := TallySeverity(severities, "LOW");
    var passed := CountStatus(results, PASS);
    var failed := CountStatus(results, FAIL);
    var errored := CountStatus(results, ERROR);
    var skipped := CountStatus(results, SKIPPED);
    CountsAddUp(results);
    var score := Rate(passed, |results| - skipped);
    var summaries := SummarizeByCategory(results);
    r := Report(|results|, passed, failed, errored, skipped, score, summaries, critical, high, medium, low);
  }

  // ----- Conservation across categories -----

  function Total(summaries: seq<CategorySummary>, f: CategorySummary -> nat): nat {
    if summaries == [] then 0 else Total(summaries[..|summaries| - 1], f) + f(summaries[|summaries| - 1])
  }

  function CountIn(results: seq<TestResult>, status: Status, category: string): nat {
    Count(InCategory(results, category), status)
  }

  function SumCounts(results: seq<TestResult>, status: Status, categories: seq<string>): nat {
    if categories == [] then 0
    else
      SumCounts(results, status, categories[..|categories| - 1])
      + CountIn(results, status, categories[|categories| - 1])
  }

  lemma {:induction false} CategoriesAreDistinct(results: seq<TestResult>)
    ensures NoDuplicates(Categories(results))
    ensures forall i | 0 <= i < |results| :: results[i].category in Categories(results)
  {
    if results != [] { CategoriesAreDistinct(results[..|results| - 1]); }
  }

  // One more result adds one to exactly one category.
  lemma {:induction false} SumOfOneMore(results: seq<TestResult>, status: Status, categories: seq<string>)
    requires results != [] && NoDuplicates(categories)
    ensures SumCounts(results, status, categories) ==
            SumCounts(results[..|results| - 1], status, categories)
            + (if results[|results| - 1].status == status && results[|results| - 1].category in categories
               then 1 else 0)
    decreases |categories|
  {
    if categories != [] {
      var init, c := categories[..|categories| - 1], categories[|categories| - 1];
      SumOfOneMore(results, status, init);
      CountInOneMore(results, status, c);
      assert forall x :: x in categories <==> x in init || x == c;
      assert c !in init;
    }
  }

  lemma CountInOneMore(results: seq<TestResult>, status: Status, c: string)
    requires results != []
    ensures var last := results[|results| - 1];
            CountIn(results, status, c) == CountIn(results[..|results| - 1], status, c)
                                           + (if last.status == status && last.category == c then 1 else 0)
  {
    var init, last := results[..|results| - 1], results[|results| - 1];
    if last.category == c {
      assert (InCategory(init, c) + [last])[..|InCategory(init, c)|] == InCategory(init, c);
    } else {
      assert InCategory(init, c) + [] == InCategory(init, c);
    }
  }

  lemma {:induction false} SumOverCategories(results: seq<TestResult>, status: Status, categories: seq<string>)
    requires NoDuplicates(categories) && forall i | 0 <= i < |results| :: results[i].category in categories
    ensures SumCounts(results, status, categories) == Count(results, status)
    decreases |results|
  {
    if results == [] {
      SumOfNone(status, categories);
    } else {
      SumOverCategories(results[..|results| - 1], status, categories);
      SumOfOneMore(results, status, categories);
    }
  }

  lemma {:induction false} SumOfNone(status: Status, categories: seq<string>)
    ensures SumCounts([], status, categories) == 0
  {
    if categories != [] { SumOfNone(status, categories[..|categories| - 1]); }
  }

  lemma {:induction false} TotalsAreSums(results: seq<TestResult>, categories: seq<string>)
    ensures var r := Summaries(results, categories);
            && Total(r, (s: CategorySummary) => s.passed) == SumCounts(results, PASS, categories)
            && Total(r, (s: CategorySummary) => s.failed) == SumCounts(results, FAIL, categories)
            && Total(r, (s: CategorySummary) => s.errors) == SumCounts(results, ERROR, categories)
            && Total(r, (s: CategorySummary) => s.skipped) == SumCounts(results, SKIPPED, categories)
    decreases |categories|
  {
    if categories != [] {
      TotalsAreSums(results, categories[..|categories| - 1]);
      var r := Summaries(results, categories);
      assert r[..|r| - 1] == Summaries(results, categories[..|categories| - 1]);
    }
  }

  /** Every result is counted in exactly one category: the per-category counts of a report add up
      to its totals, status by status. */
  lemma ReportConservation(results: seq<TestResult>)
    ensures var r := Summaries(results, SortStrings(Categories(results)));
            && Total(r, (s: CategorySummary) => s.passed) == Count(results, PASS)
            && Total(r, (s: CategorySummary) => s.failed) == Count(results, FAIL)
            && Total(r, (s: CategorySummary) => s.errors) == Count(results, ERROR)
            && Total(r, (s: CategorySummary) => s.skipped) == Count(results, SKIPPED)
  {
    var order := Categories(results);
    var sorted := SortStrings(order);
    CategoriesAreDistinct(results);
    SortStringsKeeps(order);
    DistinctByMultiset(order, sorted);
    TotalsAreSums(results, sorted);
    SumOverCategories(results, PASS, sorted);
    SumOverCategories(results, FAIL, sorted);
    SumOverCategories(results, ERROR, sorted);
    SumOverCategories(results, SKIPPED, sorted);
  }
}
