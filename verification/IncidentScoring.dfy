/** The deterministic risk score of an incident and the factors that feed it. */
module IncidentScoring {
  import opened Common
  import opened AsciiText
  import opened Collections
  import opened Scores

  const CRITICAL_WEIGHT: int := 40
  const HIGH_WEIGHT: int := 25
  const MEDIUM_WEIGHT: int := 10
  const LOW_WEIGHT: int := 5

  // `str(x).strip().upper()`
  function Norm(s: string): string { Upper(Trim(s, IsSpace)) }

  function Weight(severity: string): (w: int)
    ensures 0 <= w <= CRITICAL_WEIGHT
  {
    var n := Norm(severity);
    if n == "CRITICAL" then CRITICAL_WEIGHT
    else if n == "HIGH" then HIGH_WEIGHT
    else if n == "MEDIUM" then MEDIUM_WEIGHT
    else if n == "LOW" then LOW_WEIGHT
    else 0
  }

  function TotalWeight(findings: seq<string>): (w: int)
    ensures w >= 0
  {
    SumIsNatural(findings, Weight);
    Sum(findings, Weight)
  }

  function Domains(categories: seq<string>): set<string> {
    set c | c in categories && c != "" :: Norm(c)
  }

  datatype Flags = Flags(regressions: bool, degraded: bool, repeated: bool)

  function Bonus(flags: Flags, domains: set<string>): (b: int)
    ensures 0 <= b <= 50
  {
    (if flags.regressions then 15 else 0) + (if flags.degraded then 15 else 0)
    + (if flags.repeated then 10 else 0) + (if |domains| > 1 then 10 else 0)
  }

  // The base severity counts only when no findings were given.
  function BaseWeight(findings: seq<string>, base: string): int {
    if findings == [] && base != "" then Weight(base) else 0
  }

  function Risk(findings: seq<string>, flags: Flags, categories: seq<string>, base: string): (r: int)
    ensures 0 <= r <= 100
  {
    Clamp(TotalWeight(findings) + Bonus(flags, Domains(categories)) + BaseWeight(findings, base))
  }

  method WeighFindings(findings: seq<string>) returns (score: int)
    ensures score == TotalWeight(findings)
  {
    score := 0;
    for i := 0 to |findings|
      invariant score == TotalWeight(findings[..i])
    {
      assert findings[..i + 1][..i] == findings[..i];
      var n := Norm(findings[i]);
      if n == "CRITICAL" { score := score + 40; }
      else if n == "HIGH" { score := score + 25; }
      else if n == "MEDIUM" { score := score + 10; }
      else if n == "LOW" { score := score + 5; }
    }
    assert findings[..|findings|] == findings;
  }

  method AddBonuses(start: int, flags: Flags, domains: set<string>) returns (score: int)
    ensures score == start + Bonus(flags, domains)
  {
    score := start;
    if flags.regressions { score := score + 15; }
    if flags.degraded { score := score + 15; }
    if flags.repeated { score := score + 10; }
    if |domains| > 1 { score := score + 10; }
  }

  // `calculate_incident_risk`
  method CalculateIncidentRisk(findings: seq<string>, flags: Flags, categories: seq<string>, base: string)
    returns (score: int)
    ensures score == Risk(findings, flags, categories, base)
  {
    score := WeighFindings(findings);
    score := AddBonuses(score, flags, Domains(categories));
    if findings == [] && base != "" {
      var more := WeighFindings([base]);
      assert [base][..0] == [];
      score := score + more;
    }
    score := Clamp(score);
  }

  function PriorityOf(severity: string): string {
    if severity == "CRITICAL" then "P1"
    else if severity == "HIGH" then "P2"
    else if severity == "MEDIUM" then "P3"
    else "P4"
  }

  // ----- The score in numbers -----

  // How many findings carry the name once stripped and upper-cased.
  function HowMany(findings: seq<string>, name: string): nat {
    if findings == [] then 0
    else
      HowMany(findings[..|findings| - 1], name)
      + (if Upper(Trim(findings[|findings| - 1], IsSpace)) == name then 1 else 0)
  }

  lemma {:induction false} FindingsAddUp(findings: seq<string>)
    ensures TotalWeight(findings) ==
            40 * HowMany(findings, "CRITICAL") + 25 * HowMany(findings, "HIGH")
            + 10 * HowMany(findings, "MEDIUM") + 5 * HowMany(findings, "LOW")
  {
    if findings != [] { FindingsAddUp(findings[..|findings| - 1]); }
  }

  predicate TwoDomains(categories: seq<string>) {
    exists i, j | 0 <= i < |categories| && 0 <= j < |categories| ::
      && categories[i] != "" && categories[j] != ""
      && Upper(Trim(categories[i], IsSpace)) != Upper(Trim(categories[j], IsSpace))
  }

  lemma DomainsCounted(categories: seq<string>)
    ensures |Domains(categories)| > 1 <==> TwoDomains(categories)
  {
    if TwoDomains(categories) {
      var i, j :| 0 <= i < |categories| && 0 <= j < |categories|
        && categories[i] != "" && categories[j] != "" && Norm(categories[i]) != Norm(categories[j]);
      TwoAreMany(Domains(categories), Norm(categories[i]), Norm(categories[j]));
    }
    if |Domains(categories)| > 1 {
      var d, e := TwoMembers(Domains(categories));
      var i :| 0 <= i < |categories| && categories[i] != "" && Norm(categories[i]) == d;
      var j :| 0 <= j < |categories| && categories[j] != "" && Norm(categories[j]) == e;
    }
  }

  /** The score is the documented sum, held to 100: 40, 25, 10 and 5 for each CRITICAL, HIGH, MEDIUM and
      LOW finding, 15, 15 and 10 for the three flags, 10 for a second domain, and, when no findings are
      given, the base severity's weight. */
  lemma ScoreIsSum(findings: seq<string>, flags: Flags, categories: seq<string>, base: string)
    ensures var raw :=
              40 * HowMany(findings, "CRITICAL") + 25 * HowMany(findings, "HIGH")
              + 10 * HowMany(findings, "MEDIUM") + 5 * HowMany(findings, "LOW")
              + (if flags.regressions then 15 else 0) + (if flags.degraded then 15 else 0)
              + (if flags.repeated then 10 else 0) + (if TwoDomains(categories) then 10 else 0)
              + (if findings != [] then 0
                 else 40 * HowMany([base], "CRITICAL") + 25 * HowMany([base], "HIGH")
                      + 10 * HowMany([base], "MEDIUM") + 5 * HowMany([base], "LOW"));
            Risk(findings, flags, categories, base) == if raw > 100 then 100 else raw
  {
    FindingsAddUp(findings);
    FindingsAddUp([base]);
    DomainsCounted(categories);
    assert [base][..0] == [];
    if base == "" { BlankIsNothing(); }
  }

  lemma BlankIsNothing()
    ensures Norm("") == ""
  {
  }

  // ----- Properties of the score -----

  /** The score is a function of the findings as a multiset, the flags, the set of domains and, without
      findings, the base severity. */
  lemma RiskDependsOn(a: seq<string>, b: seq<string>, flags: Flags, c: seq<string>, d: seq<string>, base: string)
    requires multiset(a) == multiset(b) && Domains(c) == Domains(d)
    ensures Risk(a, flags, c, base) == Risk(b, flags, d, base)
  {
    SumIgnoresOrder(a, b, Weight);
    assert |a| == |multiset(a)| == |multiset(b)| == |b|;
  }

  /** One more finding lowers the score exactly when it is the first and weighs less than the base
      severity it displaces: a LOW finding on a CRITICAL base takes 40 points down to 5. */
  lemma MoreFindingsLowerExactly(findings: seq<string>, x: string, flags: Flags, categories: seq<string>, base: string)
    ensures Risk(findings + [x], flags, categories, base) < Risk(findings, flags, categories, base)
            <==> findings == [] && base != "" && Weight(x) < Weight(base)
  {
    var more := findings + [x];
    assert more[..|more| - 1] == findings;
  }

  /** The other factors only ever raise it. */
  lemma FactorsOnlyRaise(findings: seq<string>, f: Flags, h: Flags, c: seq<string>, d: seq<string>, base: string)
    requires (f.regressions ==> h.regressions) && (f.degraded ==> h.degraded) && (f.repeated ==> h.repeated)
    requires Domains(c) <= Domains(d)
    ensures Risk(findings, f, c, base) <= Risk(findings, h, d, base)
  {
    SubsetSize(Domains(c), Domains(d));
  }

  // ----- Where the factors come from -----

  datatype Alert = Alert(severity: string, kind: string, regressionCount: int, scoreDelta: real)

  datatype Regression = Regression(testId: string, category: string, severity: string)

  datatype CampaignRun = CampaignRun(regressionDetected: bool, scoreDelta: real)

  // What the database holds about a campaign run: its row, its regressions, and the tests that
  // regressed in other runs. All empty when there is no run.
  datatype Evidence = Evidence(
    alert: Option<Alert>, regressions: seq<Regression>, failedBefore: set<string>, run: Option<CampaignRun>)

  datatype Factors = Factors(risk: int, severity: string, priority: string, flags: Flags, categories: set<string>)

  function Severities(regressions: seq<Regression>): seq<string> {
    seq(|regressions|, i requires 0 <= i < |regressions| => regressions[i].severity)
  }

  function CategoriesOf(regressions: seq<Regression>): seq<string> {
    seq(|regressions|, i requires 0 <= i < |regressions| => regressions[i].category)
  }

  // The categories named, as `list(set(...))` returns them.
  function Named(categories: seq<string>): set<string> { set c | c in categories && c != "" }

  function AlertSeverity(e: Evidence): seq<string> {
    if e.alert.Some? && e.alert.value.severity != "" then [e.alert.value.severity] else []
  }

  predicate Degrades(delta: real) { delta < -5.0 }

  predicate AlertRegresses(a: Option<Alert>) {
    a.Some? && (a.value.kind == "CAMPAIGN_REGRESSION" || a.value.regressionCount > 0)
  }

  predicate AlertDegrades(a: Option<Alert>) {
    a.Some? && (a.value.kind == "SECURITY_SCORE_DEGRADATION" || Degrades(a.value.scoreDelta))
  }

  // Some regressed test had regressed in another run.
  predicate Repeats(regressions: seq<Regression>, failedBefore: set<string>) {
    exists i | 0 <= i < |regressions| :: regressions[i].testId != "" && regressions[i].testId in failedBefore
  }

  function FlagsOf(e: Evidence): Flags {
    Flags(
      AlertRegresses(e.alert) || e.regressions != [] || (e.run.Some? && e.run.value.regressionDetected),
      AlertDegrades(e.alert) || (e.run.Some? && Degrades(e.run.value.scoreDelta)),
      Repeats(e.regressions, e.failedBefore))
  }

  function BaseOf(e: Evidence): string { if e.alert.Some? then e.alert.value.severity else "MEDIUM" }

  function RiskOf(e: Evidence): (r: int)
    ensures 0 <= r <= 100
  {
    Risk(AlertSeverity(e) + Severities(e.regressions), FlagsOf(e), CategoriesOf(e.regressions), BaseOf(e))
  }

  method CollectRegressions(regressions: seq<Regression>, failedBefore: set<string>)
    returns (severities: seq<string>, categories: seq<string>, repeated: bool)
    ensures severities == Severities(regressions)
    ensures Domains(categories) == Domains(CategoriesOf(regressions))
    ensures (set c | c in categories) == Named(CategoriesOf(regressions))
    ensures repeated == Repeats(regressions, failedBefore)
  {
    severities, categories, repeated := [], [], false;
    for i := 0 to |regressions|
      invariant severities == Severities(regressions)[..i]
      invariant Domains(categories) == Domains(CategoriesOf(regressions)[..i])
      invariant forall c :: c in categories <==> c in Named(CategoriesOf(regressions)[..i])
      invariant repeated == Repeats(regressions[..i], failedBefore)
    {
      var r := regressions[i];
      assert regressions[..i + 1] == regressions[..i] + [r];
      assert CategoriesOf(regressions)[..i + 1] == CategoriesOf(regressions)[..i] + [r.category];
      DomainsOfOneMore(CategoriesOf(regressions)[..i], r.category);
      DomainsOfOneMore(categories, r.category);
      severities := severities + [r.severity];
      if r.category != "" {
        categories := categories + [r.category];
      }
      if r.testId != "" && r.testId in failedBefore {
        repeated := true;
      }
    }
    assert CategoriesOf(regressions)[..|regressions|] == CategoriesOf(regressions);
    assert regressions[..|regressions|] == regressions;
  }

  lemma DomainsOfOneMore(categories: seq<string>, c: string)
    ensures Domains(categories + [c]) == Domains(categories) + (if c != "" then {Norm(c)} else {})
  {
    assert forall x :: x in categories + [c] <==> x in categories || x == c;
  }

  method ReadAlert(e: Evidence) returns (findings: seq<string>, regressed: bool, degraded: bool)
    ensures findings == AlertSeverity(e) && regressed == AlertRegresses(e.alert) && degraded == AlertDegrades(e.alert)
  {
    findings, regressed, degraded := [], false, false;
    if e.alert.Some? {
      var a := e.alert.value;
      if a.severity != "" { findings := findings + [a.severity]; }
      if a.kind == "CAMPAIGN_REGRESSION" || a.regressionCount > 0 { regressed := true; }
      if a.kind == "SECURITY_SCORE_DEGRADATION" || a.scoreDelta < -5.0 { degraded := true; }
    }
  }

  // `evaluate_incident_correlation_factors`
  method EvaluateCorrelationFactors(e: Evidence) returns (f: Factors)
    ensures f.risk == RiskOf(e) && f.flags == FlagsOf(e)
    ensures f.categories == Named(CategoriesOf(e.regressions))
    ensures f.severity == Classify(f.risk) && f.priority == PriorityOf(f.severity)
    ensures if f.risk >= 80 then f.severity == "CRITICAL" && f.priority == "P1"
            else if f.risk >= 60 then f.severity == "HIGH" && f.priority == "P2"
            else if f.risk >= 30 then f.severity == "MEDIUM" && f.priority == "P3"
            else f.severity == "LOW" && f.priority == "P4"
    ensures f.flags.regressions <==>
              || (e.alert.Some? && (e.alert.value.kind == "CAMPAIGN_REGRESSION" || e.alert.value.regressionCount > 0))
              || e.regressions != [] || (e.run.Some? && e.run.value.regressionDetected)
    ensures f.flags.degraded <==>
              || (e.alert.Some?
                  && (e.alert.value.kind == "SECURITY_SCORE_DEGRADATION" || e.alert.value.scoreDelta < -5.0))
              || (e.run.Some? && e.run.value.scoreDelta < -5.0)
    ensures f.flags.repeated <==>
              exists r | r in e.regressions :: r.testId != "" && r.testId in e.failedBefore
    ensures forall c :: c in f.categories <==> c != "" && exists r | r in e.regressions :: r.category == c
  {
    var findings, regressed, degraded := ReadAlert(e);
    var severities, categories, repeated := CollectRegressions(e.regressions, e.failedBefore);
    if e.regressions != [] { regressed := true; }
    if e.run.Some? {
      if e.run.value.regressionDetected { regressed := true; }
      if e.run.value.scoreDelta < -5.0 { degraded := true; }
    }
    var flags := Flags(regressed, degraded, repeated);
    var risk := CalculateIncidentRisk(findings + severities, flags, categories, BaseOf(e));
    SameDomainsSameRisk(findings + severities, flags, categories, CategoriesOf(e.regressions), BaseOf(e));
    f := Factors(risk, Classify(risk), PriorityOf(Classify(risk)), flags, set c | c in categories);
    RepeatsMeans(e.regressions, e.failedBefore);
    NamedMeans(e.regressions);
  }

  lemma RepeatsMeans(regressions: seq<Regression>, failedBefore: set<string>)
    ensures Repeats(regressions, failedBefore) <==>
            exists r | r in regressions :: r.testId != "" && r.testId in failedBefore
  {
    if r :| r in regressions && r.testId != "" && r.testId in failedBefore {
      var i :| 0 <= i < |regressions| && regressions[i] == r;
    }
  }

  lemma NamedMeans(regressions: seq<Regression>)
    ensures forall c :: c in Named(CategoriesOf(regressions)) <==>
                        c != "" && exists r | r in regressions :: r.category == c
  {
    var cs := CategoriesOf(regressions);
    forall c
      ensures c in cs <==> exists r | r in regressions :: r.category == c
    {
      if c in cs {
        var i :| 0 <= i < |cs| && cs[i] == c;
        assert regressions[i] in regressions;
      }
      if r :| r in regressions && r.category == c {
        var i :| 0 <= i < |regressions| && regressions[i] == r;
        assert cs[i] == c;
      }
    }
  }

  /** What is scored is the alert's severity, if it has one, then those of the regressions, on the alert's
      own severity as base, or MEDIUM without an alert. */
  lemma EvidenceIsScored(e: Evidence, findings: seq<string>, categories: seq<string>, flags: Flags)
    requires |findings| == |e.regressions| + (if e.alert.Some? && e.alert.value.severity != "" then 1 else 0)
    requires e.alert.Some? && e.alert.value.severity != "" ==> findings[0] == e.alert.value.severity
    requires forall i | 0 <= i < |e.regressions| ::
               findings[|findings| - |e.regressions| + i] == e.regressions[i].severity
    requires |categories| == |e.regressions|
    requires forall i | 0 <= i < |e.regressions| :: categories[i] == e.regressions[i].category
    requires flags == FlagsOf(e)
    ensures RiskOf(e)
            == Risk(findings, flags, categories, if e.alert.None? then "MEDIUM" else e.alert.value.severity)
  {
    assert findings == AlertSeverity(e) + Severities(e.regressions);
    assert categories == CategoriesOf(e.regressions);
  }

  lemma SameDomainsSameRisk(findings: seq<string>, flags: Flags, c: seq<string>, d: seq<string>, base: string)
    requires Domains(c) == Domains(d)
    ensures Risk(findings, flags, c, base) == Risk(findings, flags, d, base)
  {
  }

  /** Evidence that grows only by regressions never lowers the risk of an alert that has a severity. */
  lemma MoreRegressionsOnlyRaise(e: Evidence, r: Regression)
    requires e.alert.Some? && e.alert.value.severity != ""
    ensures RiskOf(e) <= RiskOf(e.(regressions := e.regressions + [r]))
  {
    var e' := e.(regressions := e.regressions + [r]);
    var base := e.alert.value.severity;
    var a, b := AlertSeverity(e) + Severities(e.regressions), AlertSeverity(e') + Severities(e'.regressions);
    assert b == a + [r.severity];
    assert CategoriesOf(e'.regressions) == CategoriesOf(e.regressions) + [r.category];
    DomainsOfOneMore(CategoriesOf(e.regressions), r.category);
    MoreFindingsLowerExactly(a, r.severity, FlagsOf(e), CategoriesOf(e.regressions), base);
    RepeatedStays(e, r);
    FactorsOnlyRaise(b, FlagsOf(e), FlagsOf(e'), CategoriesOf(e.regressions), CategoriesOf(e'.regressions), base);
  }

  lemma RepeatedStays(e: Evidence, r: Regression)
    ensures FlagsOf(e).repeated ==> FlagsOf(e.(regressions := e.regressions + [r])).repeated
  {
    var e' := e.(regressions := e.regressions + [r]);
    if FlagsOf(e).repeated {
      var i :| 0 <= i < |e.regressions| && e.regressions[i].testId != "" && e.regressions[i].testId in e.failedBefore;
      assert e'.regressions[i] == e.regressions[i];
    }
  }
}
