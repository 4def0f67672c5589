/** The governance risk score: weighted counts of distinct records, clamped to 0..100. */
module GovernanceRisk {
  import opened AsciiText
  import opened Collections
  import opened Scores
  import opened StableSort

  datatype Inputs = Inputs(
    criticalExposures: seq<string>, highExposures: seq<string>, criticalIncidents: seq<string>,
    highIncidents: seq<string>, controlGaps: seq<string>, regressions: seq<string>, overdue: seq<string>,
    domains: seq<string>, threats: seq<string>)

  datatype Factor = Factor(name: string, weight: int, count: nat, contribution: int, sourceIds: seq<string>)

  datatype Breakdown = Breakdown(score: int, classification: string, factors: seq<Factor>, raw: int)

  function Elements(xs: seq<string>): set<string> { set x | x in xs }

  // Blank domain names do not count; case and surrounding blanks do not matter.
  function DomainNames(domains: seq<string>): set<string> {
    set d | d in domains && Trim(d, IsSpace) != "" :: Upper(Trim(d, IsSpace))
  }

  // ----- The raw score -----

  function RawScore(i: Inputs): int {
    25 * |Elements(i.criticalExposures)| + 15 * |Elements(i.highExposures) - Elements(i.criticalExposures)|
    + 20 * |Elements(i.criticalIncidents)| + 10 * |Elements(i.highIncidents) - Elements(i.criticalIncidents)|
    + 15 * |Elements(i.controlGaps)| + 10 * |Elements(i.regressions)| + 15 * |Elements(i.overdue)|
    + (if |DomainNames(i.domains)| >= 2 then 10 else 0)
    + 10 * |Elements(i.threats)|
  }

  function Contribution(f: Factor): int { f.contribution }

  // The ids in sorted order; any listing sorts to the same.
  method SortedIds(ids: set<string>) returns (r: seq<string>)
    ensures NoDuplicates(r) && Elements(r) == ids && |r| == |ids|
    ensures Sorted(r, (s: string) => s, StringLe)
  {
    var left, listed := ids, [];
    while left != {}
      invariant left <= ids && NoDuplicates(listed)
      invariant forall x :: x in listed <==> x in ids - left
      invariant |listed| == |ids| - |left|
    {
      var x :| x in left;
      assert x !in listed;
      left, listed := left - {x}, listed + [x];
    }
    r := SortStrings(listed);
    SortStringsKeeps(listed);
    DistinctByMultiset(listed, r);
    StringsAreOrdered();
    SortSorts(listed, (s: string) => s, StringLe);
  }

  // A source of risk: records that weigh in one by one or, when `flat`, once there are two.
  datatype Source = Source(name: string, weight: int, ids: set<string>, flat: bool)

  predicate Counts(s: Source) { if s.flat then |s.ids| >= 2 else s.ids != {} }

  function Points(s: Source): int {
    if !Counts(s) then 0 else if s.flat then s.weight else |s.ids| * s.weight
  }

  function Kept(sources: seq<Source>): seq<Source> {
    if sources == [] then []
    else Kept(sources[..|sources| - 1]) + (if Counts(sources[|sources| - 1]) then [sources[|sources| - 1]] else [])
  }

  ghost predicate IsFactor(f: Factor, s: Source) {
    && f.name == s.name && f.weight == s.weight && f.count == |s.ids| && f.contribution == Points(s)
    && Elements(f.sourceIds) == s.ids && NoDuplicates(f.sourceIds) && Sorted(f.sourceIds, (x: string) => x, StringLe)
  }

  // The factors are those of the sources that count, in order, and add up to the raw score.
  ghost predicate Tallies(raw: int, factors: seq<Factor>, sources: seq<Source>) {
    && raw == Sum(factors, Contribution)
    && |factors| == |Kept(sources)|
    && forall k | 0 <= k < |factors| :: IsFactor(factors[k], Kept(sources)[k])
  }

  method AddFactor(raw: int, factors: seq<Factor>, ghost before: seq<Source>, s: Source)
    returns (raw': int, factors': seq<Factor>)
    requires Tallies(raw, factors, before)
    ensures Tallies(raw', factors', before + [s])
    ensures raw' == raw + Points(s)
  {
    raw', factors' := raw, factors;
    assert (before + [s])[..|before|] == before;
    if Counts(s) {
      var sorted := SortedIds(s.ids);
      var contrib := if s.flat then s.weight else |s.ids| * s.weight;
      raw' := raw + contrib;
      factors' := factors + [Factor(s.name, s.weight, |s.ids|, contrib, sorted)];
      assert factors'[..|factors|] == factors;
    }
  }

  // The four parts of the list, two sources or more at a time.
  function Exposures(i: Inputs): seq<Source> {
    var critical := Elements(i.criticalExposures);
    [Source("CRITICAL_EXPOSURE", 25, critical, false),
     Source("HIGH_EXPOSURE", 15, Elements(i.highExposures) - critical, false)]
  }

  function OpenIncidents(i: Inputs): seq<Source> {
    var critical := Elements(i.criticalIncidents);
    [Source("OPEN_CRITICAL_INCIDENT", 20, critical, false),
     Source("OPEN_HIGH_INCIDENT", 10, Elements(i.highIncidents) - critical, false)]
  }

  function Gaps(i: Inputs): seq<Source> {
    [Source("CONTROL_COVERAGE_GAP", 15, Elements(i.controlGaps), false),
     Source("ACTIVE_REGRESSION", 10, Elements(i.regressions), false),
     Source("OVERDUE_EXCEPTION", 15, Elements(i.overdue), false)]
  }

  function Spread(i: Inputs): seq<Source> {
    [Source("MULTIPLE_AFFECTED_DOMAINS", 10, DomainNames(i.domains), true),
     Source("THREAT_INTELLIGENCE_MATCH", 10, Elements(i.threats), false)]
  }

  function Sources(i: Inputs): seq<Source> { Exposures(i) + OpenIncidents(i) + Gaps(i) + Spread(i) }

  function Score(i: Inputs): (s: int)
    ensures 0 <= s <= 100
  {
    Clamp(RawScore(i))
  }

  method AddTwo(raw: int, factors: seq<Factor>, ghost before: seq<Source>, s: Source, t: Source)
    returns (raw': int, factors': seq<Factor>)
    requires Tallies(raw, factors, before)
    ensures Tallies(raw', factors', before + [s, t])
    ensures raw' == raw + Points(s) + Points(t)
  {
    raw', factors' := AddFactor(raw, factors, before, s);
    raw', factors' := AddFactor(raw', factors', before + [s], t);
    assert before + [s] + [t] == before + [s, t];
  }

  method AddExposures(i: Inputs) returns (raw: int, factors: seq<Factor>)
    ensures Tallies(raw, factors, Exposures(i))
    ensures raw == 25 * |Elements(i.criticalExposures)|
                   + 15 * |Elements(i.highExposures) - Elements(i.criticalExposures)|
  {
    var critical := Elements(i.criticalExposures);
    var high := Elements(i.highExposures) - critical;
    raw, factors := AddTwo(0, [], [], Source("CRITICAL_EXPOSURE", 25, critical, false),
                           Source("HIGH_EXPOSURE", 15, high, false));
    assert [] + Exposures(i) == Exposures(i);
  }

  method AddIncidents(i: Inputs, raw: int, factors: seq<Factor>, ghost before: seq<Source>)
    returns (raw': int, factors': seq<Factor>)
    requires Tallies(raw, factors, before)
    ensures Tallies(raw', factors', before + OpenIncidents(i))
    ensures raw' == raw + 20 * |Elements(i.criticalIncidents)|
                    + 10 * |Elements(i.highIncidents) - Elements(i.criticalIncidents)|
  {
    var critical := Elements(i.criticalIncidents);
    var high := Elements(i.highIncidents) - critical;
    raw', factors' := AddTwo(raw, factors, before, Source("OPEN_CRITICAL_INCIDENT", 20, critical, false),
                             Source("OPEN_HIGH_INCIDENT", 10, high, false));
  }

  method AddGaps(i: Inputs, raw: int, factors: seq<Factor>, ghost before: seq<Source>)
    returns (raw': int, factors': seq<Factor>)
    requires Tallies(raw, factors, before)
    ensures Tallies(raw', factors', before + Gaps(i))
    ensures raw' == raw + 15 * |Elements(i.controlGaps)| + 10 * |Elements(i.regressions)| + 15 * |Elements(i.overdue)|
  {
    var gaps := Source("CONTROL_COVERAGE_GAP", 15, Elements(i.controlGaps), false);
    var regressions := Source("ACTIVE_REGRESSION", 10, Elements(i.regressions), false);
    var overdue := Source("OVERDUE_EXCEPTION", 15, Elements(i.overdue), false);
    raw', factors' := AddTwo(raw, factors, before, gaps, regressions);
    raw', factors' := AddFactor(raw', factors', before + [gaps, regressions], overdue);
    assert before + [gaps, regressions] + [overdue] == before + Gaps(i);
  }

  method AddSpread(i: Inputs, raw: int, factors: seq<Factor>, ghost before: seq<Source>)
    returns (raw': int, factors': seq<Factor>)
    requires Tallies(raw, factors, before)
    ensures Tallies(raw', factors', before + Spread(i))
    ensures raw' == raw + (if |DomainNames(i.domains)| >= 2 then 10 else 0) + 10 * |Elements(i.threats)|
  {
    raw', factors' := AddTwo(raw, factors, before,
                             Source("MULTIPLE_AFFECTED_DOMAINS", 10, DomainNames(i.domains), true),
                             Source("THREAT_INTELLIGENCE_MATCH", 10, Elements(i.threats), false));
  }

  // `calculate_governance_risk`
  method CalculateGovernanceRisk(i: Inputs) returns (b: Breakdown)
    ensures b.raw == RawScore(i) && Tallies(b.raw, b.factors, Sources(i))
    ensures b.score == Score(i) && b.classification == Classify(b.score)
    ensures b.score == (if b.raw > 100 then 100 else b.raw)
    ensures if b.score >= 80 then b.classification == "CRITICAL"
            else if b.score >= 60 then b.classification == "HIGH"
            else if b.score >= 30 then b.classification == "MEDIUM"
            else b.classification == "LOW"
  {
    var raw, factors := AddExposures(i);
    raw, factors := AddIncidents(i, raw, factors, Exposures(i));
    raw, factors := AddGaps(i, raw, factors, Exposures(i) + OpenIncidents(i));
    raw, factors := AddSpread(i, raw, factors, Exposures(i) + OpenIncidents(i) + Gaps(i));
    var score := if raw > 100 then 100 else if raw < 0 then 0 else raw;
    b := Breakdown(score, Classify(score), factors, raw);
  }

  // ----- What the score depends on -----

  predicate SameSets(a: Inputs, b: Inputs) {
    && Elements(a.criticalExposures) == Elements(b.criticalExposures)
    && Elements(a.highExposures) == Elements(b.highExposures)
    && Elements(a.criticalIncidents) == Elements(b.criticalIncidents)
    && Elements(a.highIncidents) == Elements(b.highIncidents)
    && Elements(a.controlGaps) == Elements(b.controlGaps) && Elements(a.regressions) == Elements(b.regressions)
    && Elements(a.overdue) == Elements(b.overdue) && Elements(a.domains) == Elements(b.domains)
    && Elements(a.threats) == Elements(b.threats)
  }

  lemma DomainsOfElements(a: seq<string>, b: seq<string>)
    requires Elements(a) <= Elements(b)
    ensures DomainNames(a) <= DomainNames(b)
  {
    assert forall d :: d in a ==> d in Elements(a);
  }

  /** Order and repetition of ids do not matter. */
  lemma RawDependsOnSets(a: Inputs, b: Inputs)
    requires SameSets(a, b)
    ensures RawScore(a) == RawScore(b)
  {
    ScoreIsMonotone(a, b);
    ScoreIsMonotone(b, a);
  }

  // b has every record of a; a high one may have become critical.
  predicate Covers(a: Inputs, b: Inputs) {
    && Elements(a.criticalExposures) <= Elements(b.criticalExposures)
    && Elements(a.highExposures) <= Elements(b.highExposures) + Elements(b.criticalExposures)
    && Elements(a.criticalIncidents) <= Elements(b.criticalIncidents)
    && Elements(a.highIncidents) <= Elements(b.highIncidents) + Elements(b.criticalIncidents)
    && Elements(a.controlGaps) <= Elements(b.controlGaps) && Elements(a.regressions) <= Elements(b.regressions)
    && Elements(a.overdue) <= Elements(b.overdue) && Elements(a.domains) <= Elements(b.domains)
    && Elements(a.threats) <= Elements(b.threats)
  }

  lemma SevereSplits(critical: set<string>, high: set<string>)
    ensures |critical| + |high - critical| == |critical + high|
  {
    assert critical + high == critical + (high - critical);
  }

  // Moving a record from high to critical cannot lower the weighted count.
  lemma SevereIsMonotone(c: set<string>, h: set<string>, c': set<string>, h': set<string>)
    requires c <= c' && h <= h' + c'
    ensures |c| <= |c'| && |c| + |h - c| <= |c'| + |h' - c'|
  {
    SubsetSize(c, c');
    SevereSplits(c, h);
    SevereSplits(c', h');
    SubsetSize(c + h, c' + h');
  }

  /** More records, or a record moving from high to critical, never lower the score. */
  lemma ScoreIsMonotone(a: Inputs, b: Inputs)
    requires Covers(a, b)
    ensures RawScore(a) <= RawScore(b) && Score(a) <= Score(b)
  {
    SevereIsMonotone(Elements(a.criticalExposures), Elements(a.highExposures),
                     Elements(b.criticalExposures), Elements(b.highExposures));
    SevereIsMonotone(Elements(a.criticalIncidents), Elements(a.highIncidents),
                     Elements(b.criticalIncidents), Elements(b.highIncidents));
    SubsetSize(Elements(a.controlGaps), Elements(b.controlGaps));
    SubsetSize(Elements(a.regressions), Elements(b.regressions));
    SubsetSize(Elements(a.overdue), Elements(b.overdue));
    SubsetSize(Elements(a.threats), Elements(b.threats));
    DomainsOfElements(a.domains, b.domains);
    SubsetSize(DomainNames(a.domains), DomainNames(b.domains));
  }

  // ----- What each record is worth -----

  const NOTHING: Inputs := Inputs([], [], [], [], [], [], [], [], [])

  lemma NothingScoresNothing()
    ensures RawScore(NOTHING) == 0
  {
    assert Elements([]) == {} && DomainNames([]) == {};
  }

  lemma OneMoreElement(xs: seq<string>, x: string)
    requires x !in xs
    ensures Elements(xs + [x]) == Elements(xs) + {x} && |Elements(xs + [x])| == |Elements(xs)| + 1
  {
    assert x !in Elements(xs);
  }

  /** A critical exposure on record for the first time adds 25, and takes back the 15 of a high one of
      the same id; a high one adds 15 unless it is also critical. */
  lemma ExposureAdds(i: Inputs, x: string)
    ensures x !in i.criticalExposures ==>
              RawScore(i.(criticalExposures := i.criticalExposures + [x]))
              == RawScore(i) + (if x in i.highExposures then 10 else 25)
    ensures x !in i.highExposures ==>
              RawScore(i.(highExposures := i.highExposures + [x]))
              == RawScore(i) + (if x in i.criticalExposures then 0 else 15)
  {
    SevereAdds(i.criticalExposures, i.highExposures, x);
  }

  /** Likewise 20 and 10 for open incidents. */
  lemma IncidentAdds(i: Inputs, x: string)
    ensures x !in i.criticalIncidents ==>
              RawScore(i.(criticalIncidents := i.criticalIncidents + [x]))
              == RawScore(i) + (if x in i.highIncidents then 10 else 20)
    ensures x !in i.highIncidents ==>
              RawScore(i.(highIncidents := i.highIncidents + [x]))
              == RawScore(i) + (if x in i.criticalIncidents then 0 else 10)
  {
    SevereAdds(i.criticalIncidents, i.highIncidents, x);
  }

  lemma SevereAdds(critical: seq<string>, high: seq<string>, x: string)
    ensures var c, h := Elements(critical), Elements(high);
            && (x !in critical ==>
                  && |Elements(critical + [x])| == |c| + 1
                  && |h - Elements(critical + [x])| == |h - c| - (if x in high then 1 else 0))
            && (x !in high ==> |Elements(high + [x]) - c| == |h - c| + (if x in critical then 0 else 1))
  {
    var c, h := Elements(critical), Elements(high);
    if x !in critical {
      OneMoreElement(critical, x);
      assert h - (c + {x}) == (h - c) - {x};
    }
    if x !in high {
      OneMoreElement(high, x);
      assert (h + {x}) - c == if x in critical then h - c else (h - c) + {x};
    }
  }

  /** A new control gap or overdue exception adds 15. */
  lemma GapAdds(i: Inputs, x: string)
    ensures x !in i.controlGaps ==> RawScore(i.(controlGaps := i.controlGaps + [x])) == RawScore(i) + 15
    ensures x !in i.overdue ==> RawScore(i.(overdue := i.overdue + [x])) == RawScore(i) + 15
  {
    if x !in i.controlGaps { OneMoreElement(i.controlGaps, x); }
    if x !in i.overdue { OneMoreElement(i.overdue, x); }
  }

  /** A new regression or threat match adds 10. */
  lemma RegressionAdds(i: Inputs, x: string)
    ensures x !in i.regressions ==> RawScore(i.(regressions := i.regressions + [x])) == RawScore(i) + 10
    ensures x !in i.threats ==> RawScore(i.(threats := i.threats + [x])) == RawScore(i) + 10
  {
    if x !in i.regressions { OneMoreElement(i.regressions, x); }
    if x !in i.threats { OneMoreElement(i.threats, x); }
  }

  // Two named domains that differ once stripped and upper-cased.
  predicate TwoDomains(domains: seq<string>) {
    exists i, j | 0 <= i < |domains| && 0 <= j < |domains| ::
      && Trim(domains[i], IsSpace) != "" && Trim(domains[j], IsSpace) != ""
      && Upper(Trim(domains[i], IsSpace)) != Upper(Trim(domains[j], IsSpace))
  }

  lemma DomainsCounted(domains: seq<string>)
    ensures |DomainNames(domains)| >= 2 <==> TwoDomains(domains)
  {
    if TwoDomains(domains) {
      var j, k :| 0 <= j < |domains| && 0 <= k < |domains|
        && Trim(domains[j], IsSpace) != "" && Trim(domains[k], IsSpace) != ""
        && Upper(Trim(domains[j], IsSpace)) != Upper(Trim(domains[k], IsSpace));
      TwoAreMany(DomainNames(domains), Upper(Trim(domains[j], IsSpace)), Upper(Trim(domains[k], IsSpace)));
    }
    if |DomainNames(domains)| >= 2 {
      var d, e := TwoMembers(DomainNames(domains));
      var j := NamedBy(domains, d);
      var k := NamedBy(domains, e);
    }
  }

  lemma NamedBy(domains: seq<string>, d: string) returns (j: nat)
    requires d in DomainNames(domains)
    ensures j < |domains| && Trim(domains[j], IsSpace) != "" && Upper(Trim(domains[j], IsSpace)) == d
  {
    var x :| x in domains && Trim(x, IsSpace) != "" && Upper(Trim(x, IsSpace)) == d;
    j :| 0 <= j < |domains| && domains[j] == x;
  }

  /** The domains are worth 10 altogether, once two of them differ in more than case and blanks. */
  lemma DomainsAdd(i: Inputs)
    ensures RawScore(i) == RawScore(i.(domains := [])) + (if TwoDomains(i.domains) then 10 else 0)
  {
    assert DomainNames([]) == {};
    DomainsCounted(i.domains);
  }

  /** The nine sources in the order they are reported, with the weight each factor carries. */
  lemma SourcesInOrder(i: Inputs)
    ensures |Sources(i)| == 9
    ensures Sources(i)[0].name == "CRITICAL_EXPOSURE" && Sources(i)[0].weight == 25
    ensures Sources(i)[1].name == "HIGH_EXPOSURE" && Sources(i)[1].weight == 15
    ensures Sources(i)[2].name == "OPEN_CRITICAL_INCIDENT" && Sources(i)[2].weight == 20
    ensures Sources(i)[3].name == "OPEN_HIGH_INCIDENT" && Sources(i)[3].weight == 10
    ensures Sources(i)[4].name == "CONTROL_COVERAGE_GAP" && Sources(i)[4].weight == 15
    ensures Sources(i)[5].name == "ACTIVE_REGRESSION" && Sources(i)[5].weight == 10
    ensures Sources(i)[6].name == "OVERDUE_EXCEPTION" && Sources(i)[6].weight == 15
    ensures Sources(i)[7].name == "MULTIPLE_AFFECTED_DOMAINS" && Sources(i)[7].weight == 10
    ensures Sources(i)[8].name == "THREAT_INTELLIGENCE_MATCH" && Sources(i)[8].weight == 10
  {
  }

  /** Which records stand behind each source. */
  lemma SourcesHold(i: Inputs, x: string)
    ensures x in Sources(i)[0].ids <==> x in i.criticalExposures
    ensures x in Sources(i)[1].ids <==> x in i.highExposures && x !in i.criticalExposures
    ensures x in Sources(i)[2].ids <==> x in i.criticalIncidents
    ensures x in Sources(i)[3].ids <==> x in i.highIncidents && x !in i.criticalIncidents
    ensures x in Sources(i)[4].ids <==> x in i.controlGaps
    ensures x in Sources(i)[5].ids <==> x in i.regressions
    ensures x in Sources(i)[6].ids <==> x in i.overdue
    ensures x in Sources(i)[8].ids <==> x in i.threats
  {
  }
}
