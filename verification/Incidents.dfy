/** Incidents: their lifecycle and the correlation of alerts into them. Times are microseconds. */
module Incidents {
  import opened Common
  import opened AsciiText
  import opened IncidentScoring
  import opened Scores

  const WINDOW: int := 1_800_000_000

  datatype Status = OPEN | INVESTIGATING | CONTAINED | RESOLVED | CLOSED | FALSE_POSITIVE

  // `correlated` tells the incidents the correlator opened from those opened by hand.
  datatype Incident = Incident(
    campaign: Option<string>, run: Option<string>, alert: Option<string>, status: Status, severity: string,
    priority: string, risk: int, createdAt: int, updatedAt: int, resolvedAt: Option<int>, assignedTo: Option<string>,
    correlated: bool)

  predicate Active(s: Status) { s == OPEN || s == INVESTIGATING || s == CONTAINED }

  // ----- Finding the incident an alert belongs to -----

  // An alert with the campaign, run and alert it names, if any.
  datatype Query = Query(campaign: Option<string>, run: Option<string>, alert: Option<string>, now: int)

  predicate Given(name: Option<string>) { name.Some? && name.value != "" }

  predicate ByRun(i: Incident, q: Query) { Given(q.run) && i.run == q.run && Active(i.status) }

  predicate ByCampaign(i: Incident, q: Query) {
    Given(q.campaign) && i.campaign == q.campaign && i.createdAt >= q.now - WINDOW && Active(i.status)
  }

  predicate ByAlert(i: Incident, q: Query) { Given(q.alert) && i.alert == q.alert }

  predicate NoneBy(incidents: seq<Incident>, q: Query, rule: (Incident, Query) -> bool) {
    forall k | 0 <= k < |incidents| :: !rule(incidents[k], q)
  }

  // k is a newest row the rule selects; ties are the database's choice.
  predicate NewestBy(incidents: seq<Incident>, q: Query, rule: (Incident, Query) -> bool, k: nat) {
    && k < |incidents| && rule(incidents[k], q)
    && forall j | 0 <= j < |incidents| && rule(incidents[j], q) :: incidents[j].createdAt <= incidents[k].createdAt
  }

  // What `find_correlatable_incident` may answer: run first, then campaign, then alert.
  predicate Finds(incidents: seq<Incident>, q: Query, found: Option<nat>) {
    if !NoneBy(incidents, q, ByRun) then found.Some? && NewestBy(incidents, q, ByRun, found.value)
    else if !NoneBy(incidents, q, ByCampaign) then found.Some? && NewestBy(incidents, q, ByCampaign, found.value)
    else if !NoneBy(incidents, q, ByAlert) then
      found.Some? && found.value < |incidents| && ByAlert(incidents[found.value], q)
    else found.None?
  }

  method NewestMatch(incidents: seq<Incident>, q: Query, rule: (Incident, Query) -> bool) returns (found: Option<nat>)
    ensures found.Some? ==> NewestBy(incidents, q, rule, found.value)
    ensures found.None? <==> NoneBy(incidents, q, rule)
  {
    found := None;
    for i := 0 to |incidents|
      invariant found.Some? ==> found.value < i && NewestBy(incidents[..i], q, rule, found.value)
      invariant found.None? <==> NoneBy(incidents[..i], q, rule)
    {
      assert incidents[..i + 1] == incidents[..i] + [incidents[i]];
      if rule(incidents[i], q) && (found.None? || incidents[found.value].createdAt < incidents[i].createdAt) {
        found := Some(i);
      }
    }
    assert incidents[..|incidents|] == incidents;
  }

  // `find_correlatable_incident`, with the first of equally new rows.
  method FindCorrelatableIncident(incidents: seq<Incident>, q: Query) returns (found: Option<nat>)
    ensures Finds(incidents, q, found)
  {
    found := NewestMatch(incidents, q, ByRun);
    if found.Some? {
      return;
    }
    found := NewestMatch(incidents, q, ByCampaign);
    if found.Some? {
      return;
    }
    found := NewestMatch(incidents, q, ByAlert);
  }

  // Open, under investigation or contained.
  predicate StillActive(i: Incident) {
    i.status == OPEN || i.status == INVESTIGATING || i.status == CONTAINED
  }

  /** The incident found for an alert: the newest active one of its run; else the newest active one of its
      campaign not older than 30 minutes; else any of the alert itself, active or not; else none. */
  lemma FindsExactly(incidents: seq<Incident>, q: Query, k: nat)
    requires k < |incidents| && Finds(incidents, q, Some(k))
    ensures var i := incidents[k];
            || (&& q.run.Some? && q.run.value != "" && i.run == q.run && StillActive(i)
                && forall j | 0 <= j < |incidents| && incidents[j].run == q.run && StillActive(incidents[j]) ::
                     incidents[j].createdAt <= i.createdAt)
            || (&& NoneOfRun(incidents, q) && q.campaign.Some? && q.campaign.value != ""
                && i.campaign == q.campaign && StillActive(i) && i.createdAt >= q.now - 1_800_000_000
                && forall j | 0 <= j < |incidents| && incidents[j].campaign == q.campaign && StillActive(incidents[j])
                              && incidents[j].createdAt >= q.now - 1_800_000_000 ::
                     incidents[j].createdAt <= i.createdAt)
            || (&& NoneOfRun(incidents, q) && NoneOfCampaign(incidents, q)
                && q.alert.Some? && q.alert.value != "" && i.alert == q.alert)
  {
    if !NoneBy(incidents, q, ByRun) {
      assert forall j | 0 <= j < |incidents| && incidents[j].run == q.run && StillActive(incidents[j]) ::
          ByRun(incidents[j], q);
    } else if !NoneBy(incidents, q, ByCampaign) {
      NoneMeans(incidents, q);
      assert forall j | 0 <= j < |incidents| && incidents[j].campaign == q.campaign && StillActive(incidents[j])
                        && incidents[j].createdAt >= q.now - 1_800_000_000 :: ByCampaign(incidents[j], q);
    } else {
      NoneMeans(incidents, q);
    }
  }

  predicate NoneOfRun(incidents: seq<Incident>, q: Query) {
    q.run.Some? && q.run.value != "" ==>
      forall j | 0 <= j < |incidents| && incidents[j].run == q.run :: !StillActive(incidents[j])
  }

  predicate NoneOfCampaign(incidents: seq<Incident>, q: Query) {
    q.campaign.Some? && q.campaign.value != "" ==>
      forall j | 0 <= j < |incidents| && incidents[j].campaign == q.campaign && StillActive(incidents[j]) ::
        incidents[j].createdAt < q.now - 1_800_000_000
  }

  lemma NoneMeans(incidents: seq<Incident>, q: Query)
    ensures NoneBy(incidents, q, ByRun) <==> NoneOfRun(incidents, q)
    ensures NoneBy(incidents, q, ByCampaign) <==> NoneOfCampaign(incidents, q)
  {
    if NoneBy(incidents, q, ByRun) {
      assert forall j | 0 <= j < |incidents| :: !ByRun(incidents[j], q);
    }
    if NoneBy(incidents, q, ByCampaign) {
      assert forall j | 0 <= j < |incidents| :: !ByCampaign(incidents[j], q);
    }
  }

  /** None is found if and only if there is none of the three. */
  lemma FindsNoneExactly(incidents: seq<Incident>, q: Query)
    ensures Finds(incidents, q, None) <==>
            && NoneOfRun(incidents, q) && NoneOfCampaign(incidents, q)
            && (q.alert.Some? && q.alert.value != "" ==>
                  forall j | 0 <= j < |incidents| :: incidents[j].alert != q.alert)
  {
    NoneMeans(incidents, q);
    if NoneBy(incidents, q, ByAlert) {
      assert forall j | 0 <= j < |incidents| :: !ByAlert(incidents[j], q);
    }
  }

  // ----- Operations -----

  function Opened(q: Query, status: Status, severity: string, priority: string, risk: int, correlated: bool): Incident {
    Incident(q.campaign, q.run, q.alert, status, severity, priority, risk, q.now, q.now, None, None, correlated)
  }

  predicate Resolving(s: Status) { s == RESOLVED || s == CLOSED || s == FALSE_POSITIVE }

  datatype Step =
    | Create(query: Query, evidence: Evidence, severity: Option<string>, priority: Option<string>)
    | Update(id: nat, newSeverity: Option<string>, newPriority: Option<string>, assignee: Option<string>, now: int)
    | Assign(id: nat, to: string, now: int)
    | ChangeStatus(id: nat, status: string, now: int)
    | Correlate(query: Query, evidence: Evidence, found: Option<nat>)
    | FailedCorrelation

  function ParseStatus(text: string): Option<Status> {
    var n := Norm(text);
    if n == "OPEN" then Some(OPEN)
    else if n == "INVESTIGATING" then Some(INVESTIGATING)
    else if n == "CONTAINED" then Some(CONTAINED)
    else if n == "RESOLVED" then Some(RESOLVED)
    else if n == "CLOSED" then Some(CLOSED)
    else if n == "FALSE_POSITIVE" then Some(FALSE_POSITIVE)
    else None
  }

  function GivenOr(given: Option<string>, default: string): string {
    if Given(given) then given.value else default
  }

  function Created(q: Query, e: Evidence, severity: Option<string>, priority: Option<string>): Incident {
    var risk := RiskOf(e);
    Opened(q, OPEN, GivenOr(severity, Classify(risk)), GivenOr(priority, PriorityOf(Classify(risk))), risk, false)
  }

  function Assigned(i: Incident, to: string, now: int): Incident {
    i.(assignedTo := Some(to), status := if i.status == OPEN then INVESTIGATING else i.status, updatedAt := now)
  }

  function Moved(i: Incident, status: Status, now: int): Incident {
    i.(status := status, updatedAt := now, resolvedAt := if Resolving(status) then Some(now) else None)
  }

  function Edited(i: Incident, severity: Option<string>, priority: Option<string>, assignee: Option<string>,
      now: int): Incident {
    i.(severity := if Given(severity) then Upper(severity.value) else i.severity,
       priority := if Given(priority) then Upper(priority.value) else i.priority,
       assignedTo := if assignee.Some? then assignee else i.assignedTo, updatedAt := now)
  }

  function Raised(i: Incident, risk: int, now: int): Incident {
    var r := if i.risk >= risk then i.risk else risk;
    i.(risk := r, severity := Classify(r), updatedAt := now)
  }

  function Correlated(incidents: seq<Incident>, q: Query, risk: int, found: Option<nat>): seq<Incident>
    requires found.Some? ==> found.value < |incidents|
  {
    if found.Some? then incidents[found.value := Raised(incidents[found.value], risk, q.now)]
    else incidents + [Opened(q, OPEN, Classify(risk), PriorityOf(Classify(risk)), risk, true)]
  }

  function Apply(incidents: seq<Incident>, step: Step): seq<Incident> {
    match step
    case Create(q, e, severity, priority) => incidents + [Created(q, e, severity, priority)]
    case Update(id, severity, priority, assignee, now) =>
      if id < |incidents| then incidents[id := Edited(incidents[id], severity, priority, assignee, now)] else incidents
    case Assign(id, to, now) =>
      if id < |incidents| then incidents[id := Assigned(incidents[id], to, now)] else incidents
    case ChangeStatus(id, text, now) =>
      if id < |incidents| && ParseStatus(text).Some? then
        incidents[id := Moved(incidents[id], ParseStatus(text).value, now)]
      else incidents
    case Correlate(q, e, found) =>
      if Finds(incidents, q, found) then Correlated(incidents, q, RiskOf(e), found) else incidents
    case FailedCorrelation => incidents
  }

  function Run(incidents: seq<Incident>, steps: seq<Step>): seq<Incident> {
    if steps == [] then incidents else Apply(Run(incidents, steps[..|steps| - 1]), steps[|steps| - 1])
  }

  // ----- The service -----

  // The tiers from 80, 60 and 30 on.
  predicate TieredSeverity(risk: int, severity: string) {
    severity == if risk >= 80 then "CRITICAL" else if risk >= 60 then "HIGH" else if risk >= 30 then "MEDIUM" else "LOW"
  }

  predicate TieredPriority(risk: int, priority: string) {
    priority == if risk >= 80 then "P1" else if risk >= 60 then "P2" else if risk >= 30 then "P3" else "P4"
  }

  // The text, stripped and upper-cased, is the status's name.
  predicate Names(text: string, status: Status) {
    Upper(Trim(text, IsSpace)) ==
    match status
    case OPEN => "OPEN"
    case INVESTIGATING => "INVESTIGATING"
    case CONTAINED => "CONTAINED"
    case RESOLVED => "RESOLVED"
    case CLOSED => "CLOSED"
    case FALSE_POSITIVE => "FALSE_POSITIVE"
  }

  lemma StatusNamed(text: string)
    ensures ParseStatus(text).Some? ==> Names(text, ParseStatus(text).value)
    ensures ParseStatus(text).None? ==> forall s :: !Names(text, s)
  {
  }

  class IncidentService {
    var incidents: seq<Incident>

    // `create_incident`
    method CreateIncident(q: Query, e: Evidence, severity: Option<string>, priority: Option<string>)
      modifies this
      ensures incidents == Apply(old(incidents), Create(q, e, severity, priority))
      ensures |incidents| == |old(incidents)| + 1 && incidents[..|old(incidents)|] == old(incidents)
      ensures var i := incidents[|old(incidents)|];
              && i.campaign == q.campaign && i.run == q.run && i.alert == q.alert && i.status == OPEN
              && i.risk == RiskOf(e) && i.createdAt == q.now && i.updatedAt == q.now
              && i.resolvedAt == None && i.assignedTo == None && !i.correlated
              && (if severity.Some? && severity.value != "" then i.severity == severity.value
                  else TieredSeverity(i.risk, i.severity))
              && (if priority.Some? && priority.value != "" then i.priority == priority.value
                  else TieredPriority(i.risk, i.priority))
    {
      var f := EvaluateCorrelationFactors(e);
      var s, p := f.severity, f.priority;
      if Given(severity) { s := severity.value; }
      if Given(priority) { p := priority.value; }
      incidents := incidents
        + [Incident(q.campaign, q.run, q.alert, OPEN, s, p, f.risk, q.now, q.now, None, None, false)];
    }

    // `update_incident`; like its siblings it answers false where the source raises 404 (or 400).
    method UpdateIncident(id: nat, severity: Option<string>, priority: Option<string>, assignee: Option<string>,
        now: int)
      returns (ok: bool)
      modifies this
      ensures ok <==> id < |old(incidents)|
      ensures incidents == Apply(old(incidents), Update(id, severity, priority, assignee, now))
      ensures ok ==>
                var before, after := old(incidents)[id], incidents[id];
                && after.severity == (if severity.Some? && severity.value != "" then Upper(severity.value)
                                      else before.severity)
                && after.priority == (if priority.Some? && priority.value != "" then Upper(priority.value)
                                      else before.priority)
                && after.assignedTo == (if assignee.Some? then assignee else before.assignedTo)
                && incidents == old(incidents)[id := before.(severity := after.severity, priority := after.priority,
                                                             assignedTo := after.assignedTo, updatedAt := now)]
      ensures !ok ==> incidents == old(incidents)
    {
      if id >= |incidents| {
        return false;
      }
      var i := incidents[id];
      if Given(severity) { i := i.(severity := Upper(severity.value)); }
      if Given(priority) { i := i.(priority := Upper(priority.value)); }
      if assignee.Some? { i := i.(assignedTo := assignee); }
      incidents := incidents[id := i.(updatedAt := now)];
      return true;
    }

    // `assign_incident`
    method AssignIncident(id: nat, to: string, now: int) returns (ok: bool)
      modifies this
      ensures ok <==> id < |old(incidents)|
      ensures incidents == Apply(old(incidents), Assign(id, to, now))
      ensures ok ==>
                var before := old(incidents)[id];
                var status := if before.status == OPEN then INVESTIGATING else before.status;
                incidents == old(incidents)[id := before.(assignedTo := Some(to), status := status, updatedAt := now)]
      ensures !ok ==> incidents == old(incidents)
    {
      if id >= |incidents| {
        return false;
      }
      var i := incidents[id].(assignedTo := Some(to));
      if i.status == OPEN { i := i.(status := INVESTIGATING); }
      incidents := incidents[id := i.(updatedAt := now)];
      return true;
    }

    // `change_incident_status`
    method ChangeIncidentStatus(id: nat, text: string, now: int) returns (ok: bool)
      modifies this
      ensures ok <==> id < |old(incidents)| && ParseStatus(text).Some?
      ensures !ok ==> incidents == old(incidents)
      ensures ok ==> incidents == old(incidents)[id := Moved(old(incidents)[id], ParseStatus(text).value, now)]
      ensures ok ==>
                var before, after := old(incidents)[id], incidents[id];
                && Names(text, after.status)
                && (if after.status == RESOLVED || after.status == CLOSED || after.status == FALSE_POSITIVE
                    then after.resolvedAt == Some(now) else after.resolvedAt == None)
                && incidents == old(incidents)[id := before.(status := after.status, resolvedAt := after.resolvedAt,
                                                             updatedAt := now)]
      ensures !ok && id < |old(incidents)| ==> forall s :: !Names(text, s)
    {
      if id >= |incidents| {
        return false;
      }
      var status := ParseStatus(text);
      StatusNamed(text);
      if status.None? {
        return false;
      }
      var i := incidents[id].(status := status.value, updatedAt := now);
      if status.value in {RESOLVED, CLOSED, FALSE_POSITIVE} {
        i := i.(resolvedAt := Some(now));
      } else {
        i := i.(resolvedAt := None);
      }
      incidents := incidents[id := i];
      return true;
    }

    // `correlate_alert_safe`
    method CorrelateAlertSafe(q: Query, e: Evidence) returns (found: Option<nat>)
      modifies this
      ensures Finds(old(incidents), q, found)
      ensures incidents == Correlated(old(incidents), q, RiskOf(e), found)
      ensures found.Some? ==>
                && found.value < |old(incidents)|
                && var before, after := old(incidents)[found.value], incidents[found.value];
                && after.risk >= before.risk && after.risk >= RiskOf(e)
                && (after.risk == before.risk || after.risk == RiskOf(e))
                && TieredSeverity(after.risk, after.severity)
                && incidents == old(incidents)[found.value := before.(risk := after.risk, severity := after.severity,
                                                                      updatedAt := q.now)]
      ensures found.None? ==>
                && |incidents| == |old(incidents)| + 1 && incidents[..|old(incidents)|] == old(incidents)
                && var i := incidents[|old(incidents)|];
                && i.campaign == q.campaign && i.run == q.run && i.alert == q.alert && i.status == OPEN
                && i.risk == RiskOf(e) && i.createdAt == q.now && i.updatedAt == q.now
                && i.resolvedAt == None && i.assignedTo == None && i.correlated
                && TieredSeverity(i.risk, i.severity) && TieredPriority(i.risk, i.priority)
    {
      found := FindCorrelatableIncident(incidents, q);
      var f := EvaluateCorrelationFactors(e);
      if found.Some? {
        var i := incidents[found.value];
        if f.risk > i.risk { i := i.(risk := f.risk); }
        incidents := incidents[found.value := i.(severity := Classify(i.risk), updatedAt := q.now)];
      } else {
        incidents := incidents
          + [Incident(q.campaign, q.run, q.alert, OPEN, f.severity, f.priority, f.risk, q.now, q.now,
                      None, None, true)];
      }
    }
  }

  // ----- Lifecycle -----

  predicate IncidentInv(i: Incident) {
    (i.resolvedAt.Some? <==> Resolving(i.status)) && 0 <= i.risk <= 100
  }

  predicate Sound(incidents: seq<Incident>) {
    forall k | 0 <= k < |incidents| :: IncidentInv(incidents[k])
  }

  // The same incident later: its origin kept and its risk no lower.
  predicate Outlives(before: Incident, after: Incident) {
    before.risk <= after.risk && SameOrigin(before, after)
  }

  // Later incidents are those of before, and maybe more.
  predicate Extends(before: seq<Incident>, after: seq<Incident>) {
    |before| <= |after| && forall k | 0 <= k < |before| :: Outlives(before[k], after[k])
  }

  // Opened for the same campaign, in the same way, at the same time.
  predicate SameOrigin(before: Incident, after: Incident) {
    before.createdAt == after.createdAt && before.campaign == after.campaign && before.correlated == after.correlated
  }

  predicate SameOrigins(before: seq<Incident>, after: seq<Incident>) {
    |before| <= |after| && forall k | 0 <= k < |before| :: SameOrigin(before[k], after[k])
  }

  lemma OneChanged(incidents: seq<Incident>, k: nat, i: Incident)
    requires Sound(incidents) && k < |incidents| && IncidentInv(i) && Outlives(incidents[k], i)
    ensures Sound(incidents[k := i]) && Extends(incidents, incidents[k := i])
  {
  }

  lemma OneMore(incidents: seq<Incident>, i: Incident)
    requires Sound(incidents) && IncidentInv(i)
    ensures Sound(incidents + [i]) && Extends(incidents, incidents + [i])
  {
  }

  lemma StepIsSound(incidents: seq<Incident>, step: Step)
    requires Sound(incidents)
    ensures Sound(Apply(incidents, step)) && Extends(incidents, Apply(incidents, step))
  {
    match step
    case Create(q, e, severity, priority) => OneMore(incidents, Created(q, e, severity, priority));
    case Update(id, severity, priority, assignee, now) =>
      if id < |incidents| { OneChanged(incidents, id, Edited(incidents[id], severity, priority, assignee, now)); }
    case Assign(id, to, now) =>
      if id < |incidents| { OneChanged(incidents, id, Assigned(incidents[id], to, now)); }
    case ChangeStatus(id, text, now) =>
      if id < |incidents| && ParseStatus(text).Some? {
        OneChanged(incidents, id, Moved(incidents[id], ParseStatus(text).value, now));
      }
    case Correlate(q, e, found) =>
      if Finds(incidents, q, found) { CorrelatedIsSound(incidents, q, RiskOf(e), found); }
    case FailedCorrelation =>
  }

  lemma CorrelatedIsSound(incidents: seq<Incident>, q: Query, risk: int, found: Option<nat>)
    requires Sound(incidents) && 0 <= risk <= 100 && (found.Some? ==> found.value < |incidents|)
    ensures Sound(Correlated(incidents, q, risk, found)) && Extends(incidents, Correlated(incidents, q, risk, found))
  {
    if found.Some? {
      OneChanged(incidents, found.value, Raised(incidents[found.value], risk, q.now));
    } else {
      OneMore(incidents, Opened(q, OPEN, Classify(risk), PriorityOf(Classify(risk)), risk, true));
    }
  }

  /** Across all operations, resolved_at is set exactly in the three terminal statuses, risks stay in
      0..100 and never fall, and no incident is lost or re-dated. */
  lemma {:induction false} RunIsSound(incidents: seq<Incident>, steps: seq<Step>)
    requires Sound(incidents)
    ensures Sound(Run(incidents, steps)) && Extends(incidents, Run(incidents, steps))
    decreases |steps|
  {
    if steps != [] {
      RunIsSound(incidents, steps[..|steps| - 1]);
      StepIsSound(Run(incidents, steps[..|steps| - 1]), steps[|steps| - 1]);
    }
  }

  // ----- How often the correlator opens incidents -----

  predicate Mine(i: Incident, campaign: string) { i.campaign == Some(campaign) }

  predicate AllActive(incidents: seq<Incident>, campaign: string) {
    forall k | 0 <= k < |incidents| && Mine(incidents[k], campaign) :: Active(incidents[k].status)
  }

  // No incident of the campaign ever leaves the three active statuses.
  predicate StaysActive(steps: seq<Step>, campaign: string) {
    AllActive(Run([], steps), campaign) && (steps != [] ==> StaysActive(steps[..|steps| - 1], campaign))
  }

  predicate Pushed(i: Incident, campaign: string) { Mine(i, campaign) && i.correlated }

  predicate Spaced(incidents: seq<Incident>, campaign: string) {
    forall j, k | 0 <= j < k < |incidents| && Pushed(incidents[j], campaign) && Pushed(incidents[k], campaign) ::
      incidents[k].createdAt - incidents[j].createdAt > WINDOW
  }

  // ----- When openings stay a window apart -----

  // Among the incidents seen, one the correlator opened in the window has left the active statuses.
  predicate ClosedInWindow(seen: seq<Incident>, q: Query, campaign: string) {
    exists k | 0 <= k < |seen| && Pushed(seen[k], campaign) ::
      !Active(seen[k].status) && seen[k].createdAt >= q.now - WINDOW
  }

  // The correlator opened one in the window after `seen` was read.
  predicate OpenedSince(seen: seq<Incident>, now: seq<Incident>, q: Query, campaign: string) {
    exists k | |seen| <= k < |now| && Pushed(now[k], campaign) :: now[k].createdAt >= q.now - WINDOW
  }

  /** A correlation that found nothing in `seen` and inserts into the later table `now` keeps openings a
      window apart if and only if it saw no incident the correlator had opened in the window and somebody
      closed, and the correlator has opened none in the window since. */
  lemma InsertIsSpacedExactly(seen: seq<Incident>, now: seq<Incident>, q: Query, risk: int, campaign: string)
    requires campaign != "" && q.campaign == Some(campaign) && Finds(seen, q, None)
    requires SameOrigins(seen, now) && Spaced(now, campaign)
    ensures Spaced(Correlated(now, q, risk, None), campaign)
            <==> !ClosedInWindow(seen, q, campaign) && !OpenedSince(seen, now, q, campaign)
  {
    var after := Correlated(now, q, risk, None);
    var n := |now|;
    assert Pushed(after[n], campaign) && after[n].createdAt == q.now && after[..n] == now;
    if Spaced(after, campaign) {
      forall k | 0 <= k < n && Pushed(now[k], campaign)
        ensures now[k].createdAt < q.now - WINDOW
      {
        assert Pushed(after[k], campaign);
      }
      assert forall k | 0 <= k < |seen| :: SameOrigin(seen[k], now[k]);
    }
    if !ClosedInWindow(seen, q, campaign) && !OpenedSince(seen, now, q, campaign) {
      forall k | 0 <= k < n && Pushed(now[k], campaign)
        ensures now[k].createdAt < q.now - WINDOW
      {
        if k < |seen| { assert SameOrigin(seen[k], now[k]) && !ByCampaign(seen[k], q); }
      }
    }
  }

  predicate Opens(incidents: seq<Incident>, step: Step, campaign: string) {
    && step.Correlate? && step.found.None? && Finds(incidents, step.query, None)
    && step.query.campaign == Some(campaign)
  }

  // A correlation that opens an incident for a campaign although one it opened in the window is closed.
  predicate Reopens(incidents: seq<Incident>, step: Step, campaign: string) {
    Opens(incidents, step, campaign) && ClosedInWindow(incidents, step.query, campaign)
  }

  predicate NoReopening(steps: seq<Step>, campaign: string) {
    steps != [] ==>
      && NoReopening(steps[..|steps| - 1], campaign)
      && !Reopens(Run([], steps[..|steps| - 1]), steps[|steps| - 1], campaign)
  }

  // Later incidents include those of before, opened and dated alike.
  lemma SpacingOfEarlier(before: seq<Incident>, after: seq<Incident>, campaign: string)
    requires SameOrigins(before, after) && Spaced(after, campaign)
    ensures Spaced(before, campaign)
  {
    forall j, k | 0 <= j < k < |before| && Pushed(before[j], campaign) && Pushed(before[k], campaign)
      ensures before[k].createdAt - before[j].createdAt > WINDOW
    {
      assert SameOrigin(before[j], after[j]) && SameOrigin(before[k], after[k]);
    }
  }

  lemma OthersKeepSpacing(before: seq<Incident>, after: seq<Incident>, campaign: string)
    requires Spaced(before, campaign) && SameOrigins(before, after)
    requires forall k | |before| <= k < |after| :: !Pushed(after[k], campaign)
    ensures Spaced(after, campaign)
  {
    forall j, k | 0 <= j < k < |after| && Pushed(after[j], campaign) && Pushed(after[k], campaign)
      ensures after[k].createdAt - after[j].createdAt > WINDOW
    {
      assert SameOrigin(before[j], after[j]) && SameOrigin(before[k], after[k]);
    }
  }

  lemma StepKeepsOrigins(incidents: seq<Incident>, step: Step)
    ensures SameOrigins(incidents, Apply(incidents, step))
  {
  }

  lemma StepIsSpacedExactly(incidents: seq<Incident>, step: Step, campaign: string)
    requires campaign != "" && Spaced(incidents, campaign)
    ensures Spaced(Apply(incidents, step), campaign) <==> !Reopens(incidents, step, campaign)
  {
    if Opens(incidents, step, campaign) {
      OpeningIsSpacedExactly(incidents, step, campaign);
    } else {
      StepKeepsOrigins(incidents, step);
      OthersOpenNone(incidents, step, campaign);
      OthersKeepSpacing(incidents, Apply(incidents, step), campaign);
    }
  }

  lemma OpeningIsSpacedExactly(incidents: seq<Incident>, step: Step, campaign: string)
    requires campaign != "" && Spaced(incidents, campaign) && Opens(incidents, step, campaign)
    ensures Spaced(Apply(incidents, step), campaign) <==> !ClosedInWindow(incidents, step.query, campaign)
  {
    var risk := OpeningInserts(incidents, step, campaign);
    InsertIsSpacedExactly(incidents, incidents, step.query, risk, campaign);
  }

  lemma OpeningInserts(incidents: seq<Incident>, step: Step, campaign: string) returns (risk: int)
    requires Opens(incidents, step, campaign)
    ensures Apply(incidents, step) == Correlated(incidents, step.query, risk, None)
  {
    risk := CorrelateInserts(incidents, step.query, step.evidence, None);
  }

  lemma OthersOpenNone(incidents: seq<Incident>, step: Step, campaign: string)
    requires !Opens(incidents, step, campaign)
    ensures var after := Apply(incidents, step);
            forall k | |incidents| <= k < |after| :: !Pushed(after[k], campaign)
  {
  }

  /** Over all operations, serial correlation keeps the incidents it opens for a campaign more than a
      window apart if and only if it never opens one while an incident it opened within the window is
      no longer OPEN, INVESTIGATING or CONTAINED. */
  lemma {:induction false} SpacedExactly(steps: seq<Step>, campaign: string)
    requires campaign != ""
    ensures Spaced(Run([], steps), campaign) <==> NoReopening(steps, campaign)
    decreases |steps|
  {
    if steps != [] {
      var before := Run([], steps[..|steps| - 1]);
      SpacedExactly(steps[..|steps| - 1], campaign);
      StepKeepsOrigins(before, steps[|steps| - 1]);
      if Spaced(before, campaign) {
        StepIsSpacedExactly(before, steps[|steps| - 1], campaign);
      } else if Spaced(Run([], steps), campaign) {
        SpacingOfEarlier(before, Run([], steps), campaign);
      }
    }
  }

  lemma {:induction false} ActiveMeansNoReopening(steps: seq<Step>, campaign: string)
    requires StaysActive(steps, campaign)
    ensures NoReopening(steps, campaign)
    decreases |steps|
  {
    if steps != [] {
      assert StaysActive(steps[..|steps| - 1], campaign);
      ActiveMeansNoReopening(steps[..|steps| - 1], campaign);
    }
  }

  // The campaign's correlated incidents created between two instants, inclusive.
  function CountPushed(incidents: seq<Incident>, campaign: string, from: int, to: int): nat {
    if incidents == [] then 0
    else
      var i := incidents[|incidents| - 1];
      CountPushed(incidents[..|incidents| - 1], campaign, from, to)
      + (if Pushed(i, campaign) && from <= i.createdAt <= to then 1 else 0)
  }

  lemma {:induction false} SpacedCount(incidents: seq<Incident>, campaign: string, from: int, to: int)
    requires Spaced(incidents, campaign) && from <= to
    ensures CountPushed(incidents, campaign, from, to) >= 2 ==>
              (CountPushed(incidents, campaign, from, to) - 1) * WINDOW < to - from
    decreases |incidents|
  {
    if incidents != [] {
      var before := incidents[..|incidents| - 1];
      var i := incidents[|incidents| - 1];
      SpacedCount(before, campaign, from, to);
      if Pushed(i, campaign) && from <= i.createdAt <= to && CountPushed(before, campaign, from, to) >= 1 {
        // Everything counted so far came more than a window before `i`.
        var until := i.createdAt - WINDOW - 1;
        EarlierCount(before, campaign, from, to, until);
        SomePushed(before, campaign, from, until);
        SpacedCount(before, campaign, from, until);
      }
    }
  }

  lemma {:induction false} EarlierCount(incidents: seq<Incident>, campaign: string, from: int, to: int, until: int)
    requires until <= to
    requires forall k | 0 <= k < |incidents| && Pushed(incidents[k], campaign) :: incidents[k].createdAt <= until
    ensures CountPushed(incidents, campaign, from, to) == CountPushed(incidents, campaign, from, until)
    decreases |incidents|
  {
    if incidents != [] {
      EarlierCount(incidents[..|incidents| - 1], campaign, from, to, until);
    }
  }

  lemma {:induction false} SomePushed(incidents: seq<Incident>, campaign: string, from: int, until: int)
    requires CountPushed(incidents, campaign, from, until) >= 1
    ensures from <= until
    decreases |incidents|
  {
    if incidents != [] && CountPushed(incidents[..|incidents| - 1], campaign, from, until) >= 1 {
      SomePushed(incidents[..|incidents| - 1], campaign, from, until);
    }
  }

  /** Without such a reopening, whatever else analysts close, serial correlation opens at most
      floor(T / 30 min) + 1 incidents for a campaign in any span of length T. */
  lemma CorrelationBound(steps: seq<Step>, campaign: string, from: int, to: int)
    requires campaign != "" && NoReopening(steps, campaign) && from <= to
    ensures CountPushed(Run([], steps), campaign, from, to) <= (to - from) / 1_800_000_000 + 1
  {
    SpacedExactly(steps, campaign);
    SpacedCount(Run([], steps), campaign, from, to);
  }

  /** In particular while no incident of the campaign is ever closed. */
  lemma BoundWhileActive(steps: seq<Step>, campaign: string, from: int, to: int)
    requires campaign != "" && StaysActive(steps, campaign) && from <= to
    ensures CountPushed(Run([], steps), campaign, from, to) <= (to - from) / 1_800_000_000 + 1
  {
    ActiveMeansNoReopening(steps, campaign);
    CorrelationBound(steps, campaign, from, to);
  }

  /** A reopening is reachable: once the campaign's incident is resolved, the next alert opens another,
      however soon it comes. */
  lemma ResolvedAdmitsAnother(q: Query, r: Query, e: Evidence, at: int, campaign: string)
    requires campaign != "" && q.campaign == r.campaign == Some(campaign) && q.alert != r.alert
    requires r.now <= q.now + WINDOW
    ensures var steps := [Correlate(q, e, None)] + [ChangeStatus(0, "RESOLVED", at)] + [Correlate(r, e, None)];
            |Run([], steps)| == 2 && !Spaced(Run([], steps), campaign)
  {
    RunThree(Correlate(q, e, None), ChangeStatus(0, "RESOLVED", at), Correlate(r, e, None));
    var i := FirstOpens(q, e);
    ResolvedIsParsed();
    var second := [Moved(i, RESOLVED, at)];
    assert Apply([i], ChangeStatus(0, "RESOLVED", at)) == second;
    var third := SecondOpens(second[0], r, e);
    assert Pushed(third[0], campaign) && Pushed(third[1], campaign);
  }

  lemma CorrelateInserts(incidents: seq<Incident>, q: Query, e: Evidence, found: Option<nat>) returns (risk: int)
    requires Finds(incidents, q, found)
    ensures risk == RiskOf(e)
    ensures Apply(incidents, Correlate(q, e, found)) == Correlated(incidents, q, risk, found)
  {
    risk := RiskOf(e);
  }

  lemma FirstOpens(q: Query, e: Evidence) returns (i: Incident)
    ensures Apply([], Correlate(q, e, None)) == [i]
    ensures i.correlated && i.createdAt == q.now && i.campaign == q.campaign && i.alert == q.alert
  {
    var risk := CorrelateInserts([], q, e, None);
    i := Correlated([], q, risk, None)[0];
  }

  lemma SecondOpens(i: Incident, r: Query, e: Evidence) returns (after: seq<Incident>)
    requires !Active(i.status) && i.alert != r.alert
    ensures after == Apply([i], Correlate(r, e, None)) && |after| == 2 && after[0] == i
    ensures after[1].correlated && after[1].createdAt == r.now && after[1].campaign == r.campaign
  {
    assert Finds([i], r, None);
    var risk := CorrelateInserts([i], r, e, None);
    after := Correlated([i], r, risk, None);
  }

  lemma RunThree(a: Step, b: Step, c: Step)
    ensures Run([], [a] + [b] + [c]) == Apply(Apply(Apply([], a), b), c)
  {
    assert [a][..0] == [];
    RunSnoc([a], b);
    RunSnoc([a] + [b], c);
  }

  lemma RunSnoc(steps: seq<Step>, step: Step)
    ensures Run([], steps + [step]) == Apply(Run([], steps), step)
  {
    assert (steps + [step])[..|steps|] == steps;
  }

  lemma ResolvedIsParsed()
    ensures ParseStatus("RESOLVED") == Some(RESOLVED)
  {
  }
}
