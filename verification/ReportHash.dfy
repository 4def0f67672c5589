/** The canonical form of a report, which its integrity hash covers. */
module ReportHash {
  import opened StableSort

  // Report rows, as far as sorting and hashing are concerned; `rest` stands for the fields the
  // canonical form drops.
  datatype CategoryRow = CategoryRow(
    category: string, score: real, status: string, total: int, passed: int, rest: string)
  datatype Finding = Finding(testId: string, category: string, severity: string, title: string, rest: string)
  datatype RegressionRow = RegressionRow(testId: string, category: string, severity: string, rest: string)
  datatype Mapping = Mapping(controlId: string, coverage: string, evidence: int, rest: string)

  // The part of the executive summary that is hashed, and what is not.
  datatype Summary = Summary(
    score: real, baseline: real, delta: real, posture: string, total: int, passed: int, failed: int, errors: int,
    critical: int, high: int, regressions: int, policyVersion: string)

  datatype Header = Header(
    reportType: string, title: string, summary: Summary, evidenceCount: int, policyVersion: string,
    reportVersion: string)

  datatype Report = Report(
    header: Header, categories: seq<CategoryRow>, findings: seq<Finding>, regressions: seq<RegressionRow>,
    mappings: seq<Mapping>, rest: string, reportHash: string)

  // ----- The canonical form -----

  datatype CategoryLine = CategoryLine(category: string, score: real, status: string, total: int, passed: int)
  datatype FindingLine = FindingLine(testId: string, category: string, severity: string, title: string)
  datatype RegressionLine = RegressionLine(testId: string, category: string, severity: string)
  datatype MappingLine = MappingLine(controlId: string, coverage: string, evidence: int)

  datatype Canon = Canon(
    header: Header, categories: seq<CategoryLine>, findings: seq<FindingLine>, regressions: seq<RegressionLine>,
    mappings: seq<MappingLine>)

  function CategoryKey(c: CategoryLine): string { c.category }
  function FindingKey(f: FindingLine): (string, string) { (f.testId, f.category) }
  function RegressionKey(r: RegressionLine): string { r.testId }
  function MappingKey(m: MappingLine): string { m.controlId }

  function CategoryLines(rows: seq<CategoryRow>): seq<CategoryLine> {
    seq(|rows|, i requires 0 <= i < |rows| =>
      CategoryLine(rows[i].category, rows[i].score, rows[i].status, rows[i].total, rows[i].passed))
  }

  function FindingLines(rows: seq<Finding>): seq<FindingLine> {
    seq(|rows|, i requires 0 <= i < |rows| =>
      FindingLine(rows[i].testId, rows[i].category, rows[i].severity, rows[i].title))
  }

  function RegressionLines(rows: seq<RegressionRow>): seq<RegressionLine> {
    seq(|rows|, i requires 0 <= i < |rows| => RegressionLine(rows[i].testId, rows[i].category, rows[i].severity))
  }

  function MappingLines(rows: seq<Mapping>): seq<MappingLine> {
    seq(|rows|, i requires 0 <= i < |rows| => MappingLine(rows[i].controlId, rows[i].coverage, rows[i].evidence))
  }

  // The dictionary `calculate_report_hash` serialises.
  function Canonical(r: Report): Canon {
    Canon(r.header,
          Sort(CategoryLines(r.categories), CategoryKey, StringLe),
          Sort(FindingLines(r.findings), FindingKey, PairLe),
          Sort(RegressionLines(r.regressions), RegressionKey, StringLe),
          Sort(MappingLines(r.mappings), MappingKey, StringLe))
  }

  // `calculate_report_hash`; `digest` stands for SHA-256 of the serialised form.
  function CalculateReportHash(r: Report, digest: Canon -> string): string { digest(Canonical(r)) }

  // `verify_report_integrity`
  predicate VerifyReportIntegrity(r: Report, digest: Canon -> string) {
    r.reportHash != "" && CalculateReportHash(r, digest) == r.reportHash
  }

  // A report stored with its hash.
  function Sealed(r: Report, digest: Canon -> string): Report {
    r.(reportHash := CalculateReportHash(r, digest))
  }

  // ----- When two reports have the same canonical form -----

  // The hashed content of two reports agrees: same header and, in each list, for each sort key the
  // same lines in the same order.
  ghost predicate SameContent(a: Report, b: Report) {
    && a.header == b.header
    && Agree(CategoryLines(a.categories), CategoryLines(b.categories), CategoryKey)
    && Agree(FindingLines(a.findings), FindingLines(b.findings), FindingKey)
    && Agree(RegressionLines(a.regressions), RegressionLines(b.regressions), RegressionKey)
    && Agree(MappingLines(a.mappings), MappingLines(b.mappings), MappingKey)
  }

  /** Two reports have the same canonical form exactly when their hashed content agrees. */
  lemma CanonicalExactly(a: Report, b: Report)
    ensures Canonical(a) == Canonical(b) <==> SameContent(a, b)
  {
    StringsAreOrdered();
    PairsAreOrdered();
    SortEqualExactly(CategoryLines(a.categories), CategoryLines(b.categories), CategoryKey, StringLe);
    SortEqualExactly(FindingLines(a.findings), FindingLines(b.findings), FindingKey, PairLe);
    SortEqualExactly(RegressionLines(a.regressions), RegressionLines(b.regressions), RegressionKey, StringLe);
    SortEqualExactly(MappingLines(a.mappings), MappingLines(b.mappings), MappingKey, StringLe);
  }

  /** A sealed report whose rows were then changed to those of `b` verifies exactly when the hashed
      content of `b` is still that of the report sealed. */
  lemma VerifiesExactly(a: Report, b: Report, digest: Canon -> string)
    requires digest(Canonical(a)) != ""
    requires digest(Canonical(a)) == digest(Canonical(b)) ==> Canonical(a) == Canonical(b)
    ensures VerifyReportIntegrity(b.(reportHash := Sealed(a, digest).reportHash), digest) <==> SameContent(a, b)
  {
    CanonicalExactly(a, b);
    var stored := b.(reportHash := Sealed(a, digest).reportHash);
    assert Canonical(stored) == Canonical(b);
  }

  predicate KeysDistinct(r: Report) {
    && DistinctKeys(CategoryLines(r.categories), CategoryKey)
    && DistinctKeys(FindingLines(r.findings), FindingKey)
    && DistinctKeys(RegressionLines(r.regressions), RegressionKey)
    && DistinctKeys(MappingLines(r.mappings), MappingKey)
  }

  predicate Permuted(a: Report, b: Report) {
    && a.header == b.header
    && multiset(CategoryLines(a.categories)) == multiset(CategoryLines(b.categories))
    && multiset(FindingLines(a.findings)) == multiset(FindingLines(b.findings))
    && multiset(RegressionLines(a.regressions)) == multiset(RegressionLines(b.regressions))
    && multiset(MappingLines(a.mappings)) == multiset(MappingLines(b.mappings))
  }

  /** With distinct sort keys, reordering any of the four lists leaves the hash unchanged. */
  lemma OrderDoesNotMatter(a: Report, b: Report, digest: Canon -> string)
    requires Permuted(a, b) && KeysDistinct(a)
    ensures CalculateReportHash(a, digest) == CalculateReportHash(b, digest)
  {
    PermutedIsCanonical(a, b);
  }

  lemma SwapSorts(x: FindingLine, y: FindingLine)
    requires FindingKey(x) == FindingKey(y) && x != y
    ensures Sort([x, y], FindingKey, PairLe) != Sort([y, x], FindingKey, PairLe)
  {
    PairsAreOrdered();
    SortEqualExactly([x, y], [y, x], FindingKey, PairLe);
    var k := FindingKey(x);
    assert [x, y][1..] == [y] && [y, x][1..] == [x] && [x][1..] == [] && [y][1..] == [];
    assert WithKey([x], FindingKey, k) == [x] && WithKey([y], FindingKey, k) == [y];
    assert WithKey([x, y], FindingKey, k) == [x, y];
    assert WithKey([y, x], FindingKey, k) == [y, x];
    assert [x, y][0] != [y, x][0];
  }

  /** Without distinct keys it does: two findings of one test and category, swapped, fail verification
      although the report still lists the same findings. */
  lemma SwappedDuplicatesFail(a: Report, x: Finding, y: Finding, digest: Canon -> string)
    requires a.findings == [x, y] && x.testId == y.testId && x.category == y.category && x.title != y.title
    requires var b := a.(findings := [y, x]);
             digest(Canonical(a)) == digest(Canonical(b)) ==> Canonical(a) == Canonical(b)
    ensures !VerifyReportIntegrity(Sealed(a, digest).(findings := [y, x]), digest)
  {
    var b := a.(findings := [y, x]);
    var lx := FindingLine(x.testId, x.category, x.severity, x.title);
    var ly := FindingLine(y.testId, y.category, y.severity, y.title);
    assert FindingLines(a.findings) == [lx, ly] && FindingLines(b.findings) == [ly, lx];
    SwapSorts(lx, ly);
    assert Canonical(Sealed(a, digest).(findings := [y, x])) == Canonical(b);
  }

  // ----- Which fields are hashed -----

  predicate SameCategory(x: CategoryRow, y: CategoryRow) {
    x.category == y.category && x.score == y.score && x.status == y.status && x.total == y.total && x.passed == y.passed
  }

  /** Two lists of category rows give the same lines if and only if they agree, row by row, on these fields. */
  lemma CategoryLinesShow(a: seq<CategoryRow>, b: seq<CategoryRow>)
    ensures CategoryLines(a) == CategoryLines(b)
            <==> |a| == |b| && forall i | 0 <= i < |a| :: SameCategory(a[i], b[i])
  {
    assert |CategoryLines(a)| == |a| && |CategoryLines(b)| == |b|;
    if CategoryLines(a) == CategoryLines(b) {
      forall i | 0 <= i < |a|
        ensures SameCategory(a[i], b[i])
      {
        assert CategoryLines(a)[i] == CategoryLines(b)[i];
      }
    } else if |a| == |b| {
      var i :| 0 <= i < |a| && CategoryLines(a)[i] != CategoryLines(b)[i];
      assert !SameCategory(a[i], b[i]);
    }
  }

  predicate SameFinding(x: Finding, y: Finding) {
    x.testId == y.testId && x.category == y.category && x.severity == y.severity && x.title == y.title
  }

  /** Likewise for findings, */
  lemma FindingLinesShow(a: seq<Finding>, b: seq<Finding>)
    ensures FindingLines(a) == FindingLines(b)
            <==> |a| == |b| && forall i | 0 <= i < |a| :: SameFinding(a[i], b[i])
  {
    assert |FindingLines(a)| == |a| && |FindingLines(b)| == |b|;
    if FindingLines(a) == FindingLines(b) {
      forall i | 0 <= i < |a|
        ensures SameFinding(a[i], b[i])
      {
        assert FindingLines(a)[i] == FindingLines(b)[i];
      }
    } else if |a| == |b| {
      var i :| 0 <= i < |a| && FindingLines(a)[i] != FindingLines(b)[i];
      assert !SameFinding(a[i], b[i]);
    }
  }

  predicate SameRegression(x: RegressionRow, y: RegressionRow) {
    x.testId == y.testId && x.category == y.category && x.severity == y.severity
  }

  /** regressions */
  lemma RegressionLinesShow(a: seq<RegressionRow>, b: seq<RegressionRow>)
    ensures RegressionLines(a) == RegressionLines(b)
            <==> |a| == |b| && forall i | 0 <= i < |a| :: SameRegression(a[i], b[i])
  {
    assert |RegressionLines(a)| == |a| && |RegressionLines(b)| == |b|;
    if RegressionLines(a) == RegressionLines(b) {
      forall i | 0 <= i < |a|
        ensures SameRegression(a[i], b[i])
      {
        assert RegressionLines(a)[i] == RegressionLines(b)[i];
      }
    } else if |a| == |b| {
      var i :| 0 <= i < |a| && RegressionLines(a)[i] != RegressionLines(b)[i];
      assert !SameRegression(a[i], b[i]);
    }
  }

  predicate SameMapping(x: Mapping, y: Mapping) {
    x.controlId == y.controlId && x.coverage == y.coverage && x.evidence == y.evidence
  }

  /** and control mappings. */
  lemma MappingLinesShow(a: seq<Mapping>, b: seq<Mapping>)
    ensures MappingLines(a) == MappingLines(b)
            <==> |a| == |b| && forall i | 0 <= i < |a| :: SameMapping(a[i], b[i])
  {
    assert |MappingLines(a)| == |a| && |MappingLines(b)| == |b|;
    if MappingLines(a) == MappingLines(b) {
      forall i | 0 <= i < |a|
        ensures SameMapping(a[i], b[i])
      {
        assert MappingLines(a)[i] == MappingLines(b)[i];
      }
    } else if |a| == |b| {
      var i :| 0 <= i < |a| && MappingLines(a)[i] != MappingLines(b)[i];
      assert !SameMapping(a[i], b[i]);
    }
  }

  /** Each line carries the fields of its row under their own names. */
  lemma LinesCarry(r: Report)
    ensures forall i | 0 <= i < |r.categories| ::
              var x, l := r.categories[i], CategoryLines(r.categories)[i];
              && l.category == x.category && l.score == x.score && l.status == x.status
              && l.total == x.total && l.passed == x.passed
    ensures forall i | 0 <= i < |r.findings| ::
              var x, l := r.findings[i], FindingLines(r.findings)[i];
              l.testId == x.testId && l.category == x.category && l.severity == x.severity && l.title == x.title
    ensures forall i | 0 <= i < |r.regressions| ::
              var x, l := r.regressions[i], RegressionLines(r.regressions)[i];
              l.testId == x.testId && l.category == x.category && l.severity == x.severity
    ensures forall i | 0 <= i < |r.mappings| ::
              var x, l := r.mappings[i], MappingLines(r.mappings)[i];
              l.controlId == x.controlId && l.coverage == x.coverage && l.evidence == x.evidence
  {
  }

  // Rows with distinct sort keys: categories by name, findings by test and category, regressions by test,
  // mappings by control.
  predicate RowsDistinct(r: Report) {
    && (forall i, j | 0 <= i < j < |r.categories| :: r.categories[i].category != r.categories[j].category)
    && (forall i, j | 0 <= i < j < |r.findings| ::
          r.findings[i].testId != r.findings[j].testId || r.findings[i].category != r.findings[j].category)
    && (forall i, j | 0 <= i < j < |r.regressions| :: r.regressions[i].testId != r.regressions[j].testId)
    && (forall i, j | 0 <= i < j < |r.mappings| :: r.mappings[i].controlId != r.mappings[j].controlId)
  }

  lemma DistinctRowsDistinctKeys(r: Report)
    requires RowsDistinct(r)
    ensures KeysDistinct(r)
  {
  }

  /** With distinct keys two reports have the same canonical form if and only if they have the same header
      and, in each list, the same lines in whatever order. */
  lemma DistinctRowsAgreeExactly(a: Report, b: Report)
    requires RowsDistinct(a)
    ensures Canonical(a) == Canonical(b) <==> Permuted(a, b)
  {
    DistinctRowsDistinctKeys(a);
    if Permuted(a, b) {
      PermutedIsCanonical(a, b);
    }
    if Canonical(a) == Canonical(b) {
      StringsAreOrdered();
      PairsAreOrdered();
      SameSortSameLines(CategoryLines(a.categories), CategoryLines(b.categories), CategoryKey, StringLe);
      SameSortSameLines(FindingLines(a.findings), FindingLines(b.findings), FindingKey, PairLe);
      SameSortSameLines(RegressionLines(a.regressions), RegressionLines(b.regressions), RegressionKey, StringLe);
      SameSortSameLines(MappingLines(a.mappings), MappingLines(b.mappings), MappingKey, StringLe);
    }
  }

  lemma SameSortSameLines<T, K(!new)>(xs: seq<T>, ys: seq<T>, key: T -> K, le: (K, K) -> bool)
    requires TotalOrder(le) && Sort(xs, key, le) == Sort(ys, key, le)
    ensures multiset(xs) == multiset(ys)
  {
    SortSorts(xs, key, le);
    SortSorts(ys, key, le);
  }

  lemma PermutedIsCanonical(a: Report, b: Report)
    requires Permuted(a, b) && KeysDistinct(a)
    ensures Canonical(a) == Canonical(b)
  {
    StringsAreOrdered();
    PairsAreOrdered();
    SortOfPermutation(CategoryLines(a.categories), CategoryLines(b.categories), CategoryKey, StringLe);
    SortOfPermutation(FindingLines(a.findings), FindingLines(b.findings), FindingKey, PairLe);
    SortOfPermutation(RegressionLines(a.regressions), RegressionLines(b.regressions), RegressionKey, StringLe);
    SortOfPermutation(MappingLines(a.mappings), MappingLines(b.mappings), MappingKey, StringLe);
  }

  /** A report without a stored hash never verifies; one just sealed does, unless its digest is empty. */
  lemma SealedVerifies(r: Report, digest: Canon -> string)
    ensures !VerifyReportIntegrity(r.(reportHash := ""), digest)
    ensures VerifyReportIntegrity(Sealed(r, digest), digest) <==> digest(Canonical(r)) != ""
  {
    assert Canonical(Sealed(r, digest)) == Canonical(r);
  }

  /** The canonical lists are in dictionary order: categories by name, findings by test id and then
      category, regressions by test id, mappings by control id. */
  lemma CanonicalAscends(r: Report)
    ensures var c := Canonical(r);
            && (forall i, j | 0 <= i < j < |c.categories| ::
                  Precedes(c.categories[i].category, c.categories[j].category))
            && (forall i, j | 0 <= i < j < |c.findings| ::
                  if c.findings[i].testId == c.findings[j].testId
                  then Precedes(c.findings[i].category, c.findings[j].category)
                  else Precedes(c.findings[i].testId, c.findings[j].testId))
            && (forall i, j | 0 <= i < j < |c.regressions| ::
                  Precedes(c.regressions[i].testId, c.regressions[j].testId))
            && (forall i, j | 0 <= i < j < |c.mappings| ::
                  Precedes(c.mappings[i].controlId, c.mappings[j].controlId))
  {
    StringsAreOrdered();
    PairsAreOrdered();
    SortSorts(CategoryLines(r.categories), CategoryKey, StringLe);
    SortSorts(FindingLines(r.findings), FindingKey, PairLe);
    SortSorts(RegressionLines(r.regressions), RegressionKey, StringLe);
    SortSorts(MappingLines(r.mappings), MappingKey, StringLe);
    forall a, b
      ensures StringLe(a, b) <==> Precedes(a, b)
    {
      StringLeIsLexicographic(a, b);
    }
    var c := Canonical(r);
    assert forall i, j | 0 <= i < j < |c.findings| :: PairLe(FindingKey(c.findings[i]), FindingKey(c.findings[j]));
  }
}
