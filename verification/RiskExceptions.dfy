/** Risk exceptions: seven statuses, an append-only event log and a bulk expiry sweep. */
module RiskExceptions {
  import opened Common
  import opened Collections
  import opened Scores

  datatype Severity = CRITICAL | HIGH | MEDIUM | LOW

  datatype Status = DRAFT | PENDING_APPROVAL | APPROVED | REJECTED | EXPIRED | REVOKED | CLOSED

  datatype Row = Row(
    severity: Severity, status: Status, requestedBy: string, approvedBy: Option<string>, approvedAt: Option<int>,
    expiresAt: int, reviewDueAt: Option<int>, riskScore: int, updatedAt: int, closedAt: Option<int>)

  datatype Kind = Created | Updated | Submitted | Approved | Rejected | Renewed | Revoked | Closed | Expired

  datatype Event = Event(kind: Kind, id: string, at: int, actor: string)

  type Table = map<string, Row>

  // The table and the event log.
  datatype State = State(rows: Table, events: seq<Event>)

  const INITIAL: State := State(map[], [])

  function DefaultScore(severity: Severity): int {
    match severity
    case CRITICAL => 80
    case HIGH => 60
    case MEDIUM => 40
    case LOW => 20
  }

  predicate Active(status: Status) { status == APPROVED || status == PENDING_APPROVAL }

  predicate Terminal(status: Status) { status == REJECTED || status == REVOKED || status == CLOSED }

  // ----- What each request does to a row -----

  datatype Request =
    | Create(severity: Severity, riskScore: Option<int>, expiresAt: int, reviewDueAt: Option<int>)
    | Update(newSeverity: Option<Severity>, newExpiresAt: Option<int>, newReviewDueAt: Option<int>)
    | Submit
    | Approve
    | Reject
    | Renew(until: int)
    | Revoke
    | Close

  function NewRow(req: Request, now: int, actor: string): Row
    requires req.Create?
  {
    Row(req.severity, DRAFT, actor, None, None, req.expiresAt, req.reviewDueAt,
        Clamp(GetOr(req.riskScore, DefaultScore(req.severity))), now, None)
  }

  function EditedRow(row: Row, req: Request, now: int): Row
    requires req.Update?
  {
    var severity := GetOr(req.newSeverity, row.severity);
    row.(severity := severity, riskScore := if req.newSeverity.Some? then DefaultScore(severity) else row.riskScore,
         expiresAt := GetOr(req.newExpiresAt, row.expiresAt),
         reviewDueAt := if req.newReviewDueAt.Some? then req.newReviewDueAt else row.reviewDueAt, updatedAt := now)
  }

  // The row after a request and the kind of event logged; None when the request is refused.
  function Handle(row: Option<Row>, req: Request, now: int, actor: string): Option<(Row, Kind)> {
    if req.Create? then (if row.None? then Some((NewRow(req, now, actor), Created)) else None)
    else if row.None? then None
    else
      var r := row.value;
      match req
      case Update(_, _, _) =>
        if r.status == DRAFT || r.status == PENDING_APPROVAL then Some((EditedRow(r, req, now), Updated)) else None
      case Submit =>
        if r.status == DRAFT then Some((r.(status := PENDING_APPROVAL, updatedAt := now), Submitted)) else None
      case Approve =>
        if r.status == PENDING_APPROVAL && r.expiresAt > now then
          Some((r.(status := APPROVED, approvedBy := Some(actor), approvedAt := Some(now), updatedAt := now), Approved))
        else None
      case Reject =>
        if r.status == PENDING_APPROVAL then
          Some((r.(status := REJECTED, closedAt := Some(now), updatedAt := now), Rejected))
        else None
      case Renew(until) =>
        if (r.status == APPROVED || r.status == EXPIRED) && until > now then
          Some((r.(expiresAt := until, status := APPROVED, approvedBy := Some(actor), approvedAt := Some(now),
                   closedAt := None, updatedAt := now), Renewed))
        else None
      case Revoke =>
        if r.status != REVOKED && r.status != CLOSED then
          Some((r.(status := REVOKED, closedAt := Some(now), updatedAt := now), Revoked))
        else None
      case Close => Some((r.(status := CLOSED, closedAt := Some(now), updatedAt := now), Closed))
  }

  function Lookup(rows: Table, id: string): Option<Row> {
    if id in rows then Some(rows[id]) else None
  }

  function Called(s: State, id: string, req: Request, now: int, actor: string): State {
    match Handle(Lookup(s.rows, id), req, now, actor)
    case None => s
    case Some((row, kind)) => State(s.rows[id := row], s.events + [Event(kind, id, now, actor)])
  }

  // ----- The sweep -----

  predicate Expirable(rows: Table, id: string, now: int) {
    id in rows && Active(rows[id].status) && rows[id].expiresAt <= now
  }

  function ExpireOne(s: State, id: string, now: int): State {
    if Expirable(s.rows, id, now) then
      State(s.rows[id := s.rows[id].(status := EXPIRED, updatedAt := now)],
            s.events + [Event(Expired, id, now, "system")])
    else s
  }

  function ExpireAll(s: State, order: seq<string>, now: int): State {
    if order == [] then s else ExpireOne(ExpireAll(s, order[..|order| - 1], now), order[|order| - 1], now)
  }

  function Due(rows: Table, now: int): set<string> {
    set id | id in rows && Expirable(rows, id, now)
  }

  function Swept(rows: Table, now: int): Table {
    map id | id in rows :: if Expirable(rows, id, now) then rows[id].(status := EXPIRED, updatedAt := now) else rows[id]
  }

  // `order` lists the rows the sweep's query returned.
  predicate Lists(order: seq<string>, rows: Table, now: int) {
    && (forall id | id in order :: id in Due(rows, now))
    && (forall id | id in Due(rows, now) :: id in order)
    && NoDuplicates(order)
  }

  // The events of a sweep that expires these rows.
  function Expiries(order: seq<string>, now: int): seq<Event> {
    seq(|order|, i requires 0 <= i < |order| => Event(Expired, order[i], now, "system"))
  }

  predicate DueInTurn(rows: Table, order: seq<string>, now: int) {
    NoDuplicates(order) && forall i | 0 <= i < |order| :: Expirable(rows, order[i], now)
  }

  lemma {:induction false} ExpireAllRows(s: State, order: seq<string>, now: int)
    requires DueInTurn(s.rows, order, now)
    ensures ExpireAll(s, order, now).rows.Keys == s.rows.Keys
    ensures forall id | id in s.rows ::
              ExpireAll(s, order, now).rows[id] ==
              if id in order then s.rows[id].(status := EXPIRED, updatedAt := now) else s.rows[id]
    decreases |order|
  {
    if order != [] {
      var last, before := order[|order| - 1], order[..|order| - 1];
      assert forall i | 0 <= i < |before| :: before[i] == order[i];
      ExpireAllRows(s, before, now);
      assert order == before + [last] && Expirable(s.rows, last, now) && last !in before;
    }
  }

  lemma {:induction false} ExpireAllEvents(s: State, order: seq<string>, now: int)
    requires DueInTurn(s.rows, order, now)
    ensures ExpireAll(s, order, now).events == s.events + Expiries(order, now)
    decreases |order|
  {
    if order != [] {
      var last, before := order[|order| - 1], order[..|order| - 1];
      assert forall i | 0 <= i < |before| :: before[i] == order[i];
      ExpireAllEvents(s, before, now);
      StillExpirable(s, before, last, now);
      assert Expiries(order, now) == Expiries(before, now) + [Event(Expired, last, now, "system")];
    }
  }

  lemma StillExpirable(s: State, before: seq<string>, id: string, now: int)
    requires DueInTurn(s.rows, before, now) && Expirable(s.rows, id, now) && id !in before
    ensures Expirable(ExpireAll(s, before, now).rows, id, now)
  {
    ExpireAllRows(s, before, now);
  }

  /** The sweep at instant n changes exactly the active rows whose expiry has come, and logs one
      event for each. */
  lemma SweepExact(s: State, order: seq<string>, now: int)
    requires Lists(order, s.rows, now)
    ensures ExpireAll(s, order, now).rows == Swept(s.rows, now)
    ensures |ExpireAll(s, order, now).events| == |s.events| + |Due(s.rows, now)|
    ensures ExpireAll(s, order, now).events == s.events + Expiries(order, now)
  {
    assert forall i | 0 <= i < |order| :: order[i] in Due(s.rows, now);
    ExpireAllRows(s, order, now);
    ExpireAllEvents(s, order, now);
    DistinctCount(order, Due(s.rows, now));
  }

  // ----- Overdue, three times over -----

  // `_is_expired` and `_is_overdue`
  predicate IsOverdue(row: Row, now: int) {
    Active(row.status) && ((row.reviewDueAt.Some? && row.reviewDueAt.value <= now) || row.expiresAt <= now)
  }

  // The `where` clause of `get_overdue_exceptions`, as the rows it returns.
  function OverdueRows(rows: Table, now: int): set<string> {
    set id | id in rows && rows[id].status in {APPROVED, PENDING_APPROVAL}
             && (rows[id].expiresAt <= now || (rows[id].reviewDueAt != None && rows[id].reviewDueAt.value <= now))
  }

  // The list a governance review counts.
  method CountOverdue(rows: Table, now: int) returns (count: nat)
    ensures count == |OverdueRows(rows, now)|
  {
    var left := rows.Keys;
    var found: set<string> := {};
    while left != {}
      invariant left <= rows.Keys && found !! left
      invariant forall id :: id in found <==> id in rows && id !in left && IsOverdue(rows[id], now)
    {
      var id :| id in left;
      left := left - {id};
      var row := rows[id];
      if row.status in {APPROVED, PENDING_APPROVAL}
         && (row.expiresAt <= now || (row.reviewDueAt.Some? && row.reviewDueAt.value <= now)) {
        found := found + {id};
      }
    }
    assert found == OverdueRows(rows, now);
    count := |found|;
  }

  /** What a sweep leaves: nothing active past its expiry, and overdue exactly the active rows whose
      review, but not expiry, has come. A later sweep alone gives the same statuses. */
  lemma AfterSweep(rows: Table, now: int, later: int)
    ensures Due(Swept(rows, now), now) == {}
    ensures OverdueRows(rows, now) == set id | id in rows && IsOverdue(rows[id], now)
    ensures OverdueRows(Swept(rows, now), now)
            == set id | id in rows && Active(rows[id].status) && rows[id].reviewDueAt.Some?
                        && rows[id].reviewDueAt.value <= now < rows[id].expiresAt
    ensures now <= later ==>
              forall id | id in rows ::
                Swept(Swept(rows, now), later)[id].status == Swept(rows, later)[id].status
  {
  }

  // ----- The service -----

  // 80, 60, 40 and 20 by severity.
  predicate ScoresByDefault(row: Row) {
    && (row.severity == CRITICAL ==> row.riskScore == 80) && (row.severity == HIGH ==> row.riskScore == 60)
    && (row.severity == MEDIUM ==> row.riskScore == 40) && (row.severity == LOW ==> row.riskScore == 20)
  }

  // Expiry, review date and severity are those given, or the old ones; a severity given resets the score;
  // everything else but the update time stays.
  predicate EditedAsAsked(before: Row, after: Row, req: Request)
    requires req.Update?
  {
    && (if req.newExpiresAt.Some? then after.expiresAt == req.newExpiresAt.value
        else after.expiresAt == before.expiresAt)
    && (if req.newReviewDueAt.Some? then after.reviewDueAt == req.newReviewDueAt
        else after.reviewDueAt == before.reviewDueAt)
    && (if req.newSeverity.Some? then after.severity == req.newSeverity.value && ScoresByDefault(after)
        else after.severity == before.severity && after.riskScore == before.riskScore)
    && after.status == before.status && after.requestedBy == before.requestedBy
    && after.approvedBy == before.approvedBy && after.approvedAt == before.approvedAt
    && after.closedAt == before.closedAt
  }

  class ExceptionStore {
    var rows: Table
    var events: seq<Event>

    ghost function Value(): State
      reads this
    {
      State(rows, events)
    }

    method Log(kind: Kind, id: string, now: int, actor: string)
      modifies this`events
      ensures events == old(events) + [Event(kind, id, now, actor)]
    {
      events := events + [Event(kind, id, now, actor)];
    }

    // `create_exception`; `id` is the fresh identifier.
    method CreateException(id: string, req: Request, now: int, actor: string)
      requires id !in rows && req.Create?
      modifies this
      ensures Value() == Called(old(Value()), id, req, now, actor)
      ensures rows.Keys == old(rows).Keys + {id} && forall other | other in old(rows) :: rows[other] == old(rows)[other]
      ensures rows[id].status == DRAFT && rows[id].severity == req.severity && rows[id].requestedBy == actor
      ensures rows[id].approvedBy == None && rows[id].approvedAt == None && rows[id].closedAt == None
      ensures rows[id].expiresAt == req.expiresAt && rows[id].reviewDueAt == req.reviewDueAt
      ensures rows[id].updatedAt == now
      ensures req.riskScore.Some? ==>
                var given := req.riskScore.value;
                rows[id].riskScore == if given < 0 then 0 else if given > 100 then 100 else given
      ensures req.riskScore.None? ==> ScoresByDefault(rows[id])
      ensures events == old(events) + [Event(Created, id, now, actor)]
    {
      var score := DefaultScore(req.severity);
      if req.riskScore.Some? {
        score := req.riskScore.value;
      }
      if score > 100 { score := 100; }
      if score < 0 { score := 0; }
      rows := rows[id := Row(req.severity, DRAFT, actor, None, None, req.expiresAt, req.reviewDueAt, score, now, None)];
      Log(Created, id, now, actor);
    }

    // `update_exception`; like its siblings it answers false where the source raises ValueError.
    method UpdateException(id: string, req: Request, now: int, actor: string) returns (ok: bool)
      requires req.Update?
      modifies this
      ensures Value() == Called(old(Value()), id, req, now, actor)
      ensures ok <==> id in old(rows) && (old(rows)[id].status == DRAFT || old(rows)[id].status == PENDING_APPROVAL)
      ensures !ok ==> rows == old(rows) && events == old(events)
      ensures ok ==>
                && rows.Keys == old(rows).Keys
                && (forall other | other in rows && other != id :: rows[other] == old(rows)[other])
                && EditedAsAsked(old(rows)[id], rows[id], req) && rows[id].updatedAt == now
                && events == old(events) + [Event(Updated, id, now, actor)]
    {
      if id !in rows || !(rows[id].status == DRAFT || rows[id].status == PENDING_APPROVAL) {
        return false;
      }
      var row := rows[id];
      if req.newSeverity.Some? {
        row := row.(severity := req.newSeverity.value, riskScore := DefaultScore(req.newSeverity.value));
      }
      if req.newExpiresAt.Some? {
        row := row.(expiresAt := req.newExpiresAt.value);
      }
      if req.newReviewDueAt.Some? {
        row := row.(reviewDueAt := req.newReviewDueAt);
      }
      rows := rows[id := row.(updatedAt := now)];
      Log(Updated, id, now, actor);
      return true;
    }

    // `submit_for_approval`
    method SubmitForApproval(id: string, now: int, actor: string) returns (ok: bool)
      modifies this
      ensures Value() == Called(old(Value()), id, Submit, now, actor)
      ensures ok <==> id in old(rows) && old(rows)[id].status == DRAFT
      ensures ok ==>
                && rows == old(rows)[id := old(rows)[id].(status := PENDING_APPROVAL, updatedAt := now)]
                && events == old(events) + [Event(Submitted, id, now, actor)]
      ensures !ok ==> rows == old(rows) && events == old(events)
    {
      if id !in rows || rows[id].status != DRAFT {
        return false;
      }
      rows := rows[id := rows[id].(status := PENDING_APPROVAL, updatedAt := now)];
      Log(Submitted, id, now, actor);
      return true;
    }

    // `approve_exception`
    method ApproveException(id: string, now: int, approver: string) returns (ok: bool)
      modifies this
      ensures Value() == Called(old(Value()), id, Approve, now, approver)
      ensures ok <==> id in old(rows) && old(rows)[id].status == PENDING_APPROVAL && now < old(rows)[id].expiresAt
      ensures ok ==>
                && rows == old(rows)[id := old(rows)[id].(
                                       status := APPROVED, approvedBy := Some(approver), approvedAt := Some(now),
                                       updatedAt := now)]
                && events == old(events) + [Event(Approved, id, now, approver)]
      ensures !ok ==> rows == old(rows) && events == old(events)
    {
      if id !in rows || rows[id].status != PENDING_APPROVAL || rows[id].expiresAt <= now {
        return false;
      }
      var row := rows[id].(status := APPROVED, approvedBy := Some(approver));
      rows := rows[id := row.(approvedAt := Some(now), updatedAt := now)];
      Log(Approved, id, now, approver);
      return true;
    }

    // `reject_exception`
    method RejectException(id: string, now: int, actor: string) returns (ok: bool)
      modifies this
      ensures Value() == Called(old(Value()), id, Reject, now, actor)
      ensures ok <==> id in old(rows) && old(rows)[id].status == PENDING_APPROVAL
      ensures ok ==>
                && rows == old(rows)[id := old(rows)[id].(status := REJECTED, closedAt := Some(now), updatedAt := now)]
                && events == old(events) + [Event(Rejected, id, now, actor)]
      ensures !ok ==> rows == old(rows) && events == old(events)
    {
      if id !in rows || rows[id].status != PENDING_APPROVAL {
        return false;
      }
      rows := rows[id := rows[id].(status := REJECTED, closedAt := Some(now), updatedAt := now)];
      Log(Rejected, id, now, actor);
      return true;
    }

    // `renew_exception`
    method RenewException(id: string, until: int, now: int, reviewer: string) returns (ok: bool)
      modifies this
      ensures Value() == Called(old(Value()), id, Renew(until), now, reviewer)
      ensures ok <==> id in old(rows) && (old(rows)[id].status == APPROVED || old(rows)[id].status == EXPIRED)
                      && now < until
      ensures ok ==>
                && rows == old(rows)[id := old(rows)[id].(
                                       status := APPROVED, approvedBy := Some(reviewer), approvedAt := Some(now),
                                       expiresAt := until, closedAt := None, updatedAt := now)]
                && events == old(events) + [Event(Renewed, id, now, reviewer)]
      ensures !ok ==> rows == old(rows) && events == old(events)
    {
      if id !in rows || !(rows[id].status == APPROVED || rows[id].status == EXPIRED) || until <= now {
        return false;
      }
      var row := rows[id].(expiresAt := until, status := APPROVED, approvedBy := Some(reviewer));
      rows := rows[id := row.(approvedAt := Some(now), closedAt := None, updatedAt := now)];
      Log(Renewed, id, now, reviewer);
      return true;
    }

    // `revoke_exception`
    method RevokeException(id: string, now: int, actor: string) returns (ok: bool)
      modifies this
      ensures Value() == Called(old(Value()), id, Revoke, now, actor)
      ensures ok <==> id in old(rows) && old(rows)[id].status != REVOKED && old(rows)[id].status != CLOSED
      ensures ok ==>
                && rows == old(rows)[id := old(rows)[id].(status := REVOKED, closedAt := Some(now), updatedAt := now)]
                && events == old(events) + [Event(Revoked, id, now, actor)]
      ensures !ok ==> rows == old(rows) && events == old(events)
    {
      if id !in rows || rows[id].status == REVOKED || rows[id].status == CLOSED {
        return false;
      }
      rows := rows[id := rows[id].(status := REVOKED, closedAt := Some(now), updatedAt := now)];
      Log(Revoked, id, now, actor);
      return true;
    }

    // `close_exception`
    method CloseException(id: string, now: int, actor: string) returns (ok: bool)
      modifies this
      ensures Value() == Called(old(Value()), id, Close, now, actor)
      ensures ok <==> id in old(rows)
      ensures ok ==>
                && rows == old(rows)[id := old(rows)[id].(status := CLOSED, closedAt := Some(now), updatedAt := now)]
                && events == old(events) + [Event(Closed, id, now, actor)]
      ensures !ok ==> rows == old(rows) && events == old(events)
    {
      if id !in rows {
        return false;
      }
      rows := rows[id := rows[id].(status := CLOSED, closedAt := Some(now), updatedAt := now)];
      Log(Closed, id, now, actor);
      return true;
    }

    // `check_and_expire_exceptions`; `order` lists the rows its query returned.
    method CheckAndExpireExceptions(order: seq<string>, now: int) returns (count: nat)
      requires Lists(order, rows, now)
      modifies this
      ensures Value() == ExpireAll(old(Value()), order, now)
      ensures rows == Swept(old(rows), now)
      ensures count == |Due(old(rows), now)| == |events| - |old(events)|
      ensures rows.Keys == old(rows).Keys
      ensures forall id | id in rows ::
                var before := old(rows)[id];
                var inForce := before.status == APPROVED || before.status == PENDING_APPROVAL;
                rows[id] == if inForce && before.expiresAt <= now
                            then before.(status := EXPIRED, updatedAt := now) else before
    {
      count := 0;
      SweepExact(Value(), order, now);
      for i := 0 to |order|
        invariant count == i
        invariant Value() == ExpireAll(old(Value()), order[..i], now)
      {
        assert order[..i + 1][..i] == order[..i] && order[i] in Due(old(rows), now);
        StillDue(old(Value()), order, i, now);
        var id := order[i];
        rows := rows[id := rows[id].(status := EXPIRED, updatedAt := now)];
        Log(Expired, id, now, "system");
        count := count + 1;
      }
      assert order[..|order|] == order;
      DistinctCount(order, Due(old(rows), now));
    }
  }

  lemma StillDue(s: State, order: seq<string>, i: nat, now: int)
    requires Lists(order, s.rows, now) && i < |order|
    ensures Expirable(ExpireAll(s, order[..i], now).rows, order[i], now)
  {
    assert order[i] in Due(s.rows, now);
    forall k | 0 <= k < i
      ensures Expirable(s.rows, order[..i][k], now)
    {
      assert order[k] in Due(s.rows, now);
    }
    StillExpirable(s, order[..i], order[i], now);
  }

  // ----- Runs -----

  datatype Step =
    | Call(id: string, req: Request, now: int, actor: string)
    | Sweep(at: int, order: seq<string>)

  function Apply(s: State, step: Step): State {
    match step
    case Call(id, req, now, actor) => Called(s, id, req, now, actor)
    case Sweep(at, order) => if Lists(order, s.rows, at) then ExpireAll(s, order, at) else s
  }

  function Run(s: State, steps: seq<Step>): State {
    if steps == [] then s else Apply(Run(s, steps[..|steps| - 1]), steps[|steps| - 1])
  }

  // ----- The log determines the rows -----

  // The part of a row the log records.
  datatype Life = Life(
    status: Status, approvedBy: Option<string>, approvedAt: Option<int>, updatedAt: int, closedAt: Option<int>)

  function LifeOf(row: Row): Life {
    Life(row.status, row.approvedBy, row.approvedAt, row.updatedAt, row.closedAt)
  }

  // What an event says happened to the exception it names.
  function Evolve(life: Option<Life>, e: Event): Option<Life> {
    if e.kind.Created? then Some(Life(DRAFT, None, None, e.at, None))
    else if life.None? then None
    else
      var l := life.value.(updatedAt := e.at);
      Some(match e.kind
           case Created => l
           case Updated => l
           case Submitted => l.(status := PENDING_APPROVAL)
           case Approved => l.(status := APPROVED, approvedBy := Some(e.actor), approvedAt := Some(e.at))
           case Renewed => l.(status := APPROVED, approvedBy := Some(e.actor), approvedAt := Some(e.at))
           case Expired => l.(status := EXPIRED)
           case Rejected => l.(status := REJECTED, closedAt := Some(e.at))
           case Revoked => l.(status := REVOKED, closedAt := Some(e.at))
           case Closed => l.(status := CLOSED, closedAt := Some(e.at)))
  }

  function Replay(events: seq<Event>, id: string): Option<Life> {
    if events == [] then None
    else
      var e := events[|events| - 1];
      var before := Replay(events[..|events| - 1], id);
      if e.id == id then Evolve(before, e) else before
  }

  // The statuses in which an event of each kind may be logged.
  predicate Legal(life: Option<Life>, kind: Kind) {
    if kind.Created? then life.None?
    else
      life.Some? &&
      match kind
      case Created => false
      case Updated => life.value.status == DRAFT || life.value.status == PENDING_APPROVAL
      case Submitted => life.value.status == DRAFT
      case Approved => life.value.status == PENDING_APPROVAL
      case Rejected => life.value.status == PENDING_APPROVAL
      case Renewed => life.value.status == APPROVED || life.value.status == EXPIRED
      case Expired => Active(life.value.status)
      case Revoked => life.value.status != REVOKED && life.value.status != CLOSED
      case Closed => true
  }

  predicate LegalLog(events: seq<Event>) {
    events == [] ||
    (LegalLog(events[..|events| - 1])
     && Legal(Replay(events[..|events| - 1], events[|events| - 1].id), events[|events| - 1].kind))
  }

  ghost predicate Replays(s: State) {
    && LegalLog(s.events)
    && (forall id | id in s.rows :: Replay(s.events, id) == Some(LifeOf(s.rows[id])))
    && (forall id | id !in s.rows :: Replay(s.events, id) == None)
  }

  // What is kept of each row; the log does not record `expiresAt` or `riskScore`.
  predicate RowInv(row: Row) {
    && 0 <= row.riskScore <= 100
    && (row.closedAt.Some? <==> Terminal(row.status))
    && (row.approvedAt.Some? ==> row.expiresAt > row.approvedAt.value)
    && (row.approvedAt.Some? <==> row.approvedBy.Some?)
    && (row.status == DRAFT || row.status == PENDING_APPROVAL || row.status == REJECTED ==> row.approvedAt.None?)
    && (row.status == APPROVED ==> row.approvedAt == Some(row.updatedAt))
    && (row.status == EXPIRED ==> row.expiresAt <= row.updatedAt)
    && (Terminal(row.status) ==> row.closedAt == Some(row.updatedAt))
  }

  ghost predicate Inv(s: State) {
    Replays(s) && forall id | id in s.rows :: RowInv(s.rows[id])
  }

  lemma LogOne(s: State, row: Row, e: Event)
    requires Replays(s) && Legal(Replay(s.events, e.id), e.kind)
    requires Evolve(Replay(s.events, e.id), e) == Some(LifeOf(row))
    ensures Replays(State(s.rows[e.id := row], s.events + [e]))
  {
    assert (s.events + [e])[..|s.events|] == s.events;
  }

  function Alive(row: Option<Row>): Option<Life> {
    if row.Some? then Some(LifeOf(row.value)) else None
  }

  // Whatever a request does to a row, the event logged for it says, and was legal.
  lemma HandleIsSound(row: Option<Row>, req: Request, now: int, actor: string, e: Event)
    requires Handle(row, req, now, actor).Some? && (row.Some? ==> RowInv(row.value))
    requires e.kind == Handle(row, req, now, actor).value.1 && e.at == now && e.actor == actor
    ensures var after := Handle(row, req, now, actor).value.0;
            RowInv(after) && Legal(Alive(row), e.kind) && Evolve(Alive(row), e) == Some(LifeOf(after))
  {
  }

  lemma CallKeepsInv(s: State, id: string, req: Request, now: int, actor: string)
    requires Inv(s)
    ensures Inv(Called(s, id, req, now, actor))
  {
    var h := Handle(Lookup(s.rows, id), req, now, actor);
    if h.Some? {
      HandleIsSound(Lookup(s.rows, id), req, now, actor, Event(h.value.1, id, now, actor));
      LogOne(s, h.value.0, Event(h.value.1, id, now, actor));
    }
  }

  lemma {:induction false} SweepKeepsInv(s: State, order: seq<string>, now: int)
    requires Inv(s)
    ensures Inv(ExpireAll(s, order, now))
    decreases |order|
  {
    if order != [] {
      SweepKeepsInv(s, order[..|order| - 1], now);
      var t := ExpireAll(s, order[..|order| - 1], now);
      var id := order[|order| - 1];
      if Expirable(t.rows, id, now) {
        LogOne(t, t.rows[id].(status := EXPIRED, updatedAt := now), Event(Expired, id, now, "system"));
      }
    }
  }

  /** Over every run of calls and sweeps, with clocks that may even go back: the log is legal and
      replaying it gives each row's status, approval, closing and update; closed_at is set exactly in
      the three terminal statuses; an approval always precedes its expiry; the score is in 0..100. */
  lemma {:induction false} RunKeepsInv(steps: seq<Step>)
    ensures Inv(Run(INITIAL, steps))
    decreases |steps|
  {
    if steps != [] {
      RunKeepsInv(steps[..|steps| - 1]);
      var s := Run(INITIAL, steps[..|steps| - 1]);
      match steps[|steps| - 1]
      case Call(id, req, now, actor) => CallKeepsInv(s, id, req, now, actor);
      case Sweep(at, order) => if Lists(order, s.rows, at) { SweepKeepsInv(s, order, at); }
    }
  }

  // ----- Terminal statuses and approvals, read off the log -----

  /** Rejected, revoked and closed exceptions stay so: once the log has put an exception in one of
      these statuses, no longer legal log takes it out. */
  lemma {:induction false} TerminalIsAbsorbing(events: seq<Event>, k: nat, id: string)
    requires LegalLog(events) && k <= |events|
    requires Replay(events[..k], id).Some? && Terminal(Replay(events[..k], id).value.status)
    ensures Replay(events, id).Some? && Terminal(Replay(events, id).value.status)
    decreases |events|
  {
    if k == |events| {
      assert events[..k] == events;
    } else {
      assert events[..|events| - 1][..k] == events[..k];
      TerminalIsAbsorbing(events[..|events| - 1], k, id);
    }
  }

  lemma {:induction false} SweepAppends(s: State, order: seq<string>, now: int)
    ensures s.events <= ExpireAll(s, order, now).events
    decreases |order|
  {
    if order != [] {
      SweepAppends(s, order[..|order| - 1], now);
    }
  }

  lemma {:induction false} RunAppends(steps: seq<Step>, k: nat)
    requires k <= |steps|
    ensures Run(INITIAL, steps[..k]).events <= Run(INITIAL, steps).events
    decreases |steps|
  {
    if k == |steps| {
      assert steps[..k] == steps;
    } else {
      assert steps[..|steps| - 1][..k] == steps[..k];
      RunAppends(steps[..|steps| - 1], k);
      var step := steps[|steps| - 1];
      if step.Sweep? { SweepAppends(Run(INITIAL, steps[..|steps| - 1]), step.order, step.at); }
    }
  }

  /** So no request and no sweep ever revives an exception. */
  lemma NothingIsRevived(steps: seq<Step>, k: nat, id: string)
    requires k <= |steps|
    requires var s := Run(INITIAL, steps[..k]); id in s.rows && Terminal(s.rows[id].status)
    ensures var s := Run(INITIAL, steps); id in s.rows && Terminal(s.rows[id].status) && s.rows[id].closedAt.Some?
  {
    RunKeepsInv(steps[..k]);
    RunKeepsInv(steps);
    RunAppends(steps, k);
    var log := Run(INITIAL, steps).events;
    var n := |Run(INITIAL, steps[..k]).events|;
    assert log[..n] == Run(INITIAL, steps[..k]).events;
    TerminalIsAbsorbing(log, n, id);
  }

  // How often an exception was approved, and how often it expired unapproved.
  function Approvals(events: seq<Event>, id: string): nat {
    if events == [] then 0
    else
      var e := events[|events| - 1];
      Approvals(events[..|events| - 1], id) + (if e.id == id && e.kind == Approved then 1 else 0)
  }

  function Lapses(events: seq<Event>, id: string): nat {
    if events == [] then 0
    else
      var e := events[|events| - 1];
      var before := Replay(events[..|events| - 1], id);
      Lapses(events[..|events| - 1], id)
      + (if e.id == id && e.kind == Expired && before.Some? && before.value.status == PENDING_APPROVAL then 1 else 0)
  }

  /** An exception in force (or expired) went through exactly one approval or exactly one lapse of
      its pending request, never both: an approved status with no approval behind it occurs exactly
      when a request that expired while pending was renewed. */
  lemma {:induction false} ApprovedOrLapsed(events: seq<Event>, id: string)
    requires LegalLog(events)
    ensures Approvals(events, id) + Lapses(events, id) <= 1
    ensures var life := Replay(events, id);
            && (life.None? || life.value.status in {DRAFT, PENDING_APPROVAL, REJECTED} ==>
                  Approvals(events, id) + Lapses(events, id) == 0)
            && (life.Some? && life.value.status in {APPROVED, EXPIRED} ==>
                  Approvals(events, id) + Lapses(events, id) == 1)
    decreases |events|
  {
    if events != [] {
      ApprovedOrLapsed(events[..|events| - 1], id);
    }
  }

  // Create, submit, let expire, renew: approved without an approval.
  function RenewedUnapproved(id: string, actor: string): seq<Step> {
    [Call(id, Create(HIGH, None, 10, None), 0, actor)] + [Call(id, Submit, 1, actor)] + [Sweep(10, [id])]
    + [Call(id, Renew(20), 11, actor)]
  }

  lemma RunOne(before: seq<Step>, step: Step, s: State)
    requires Run(INITIAL, before) == s
    ensures Run(INITIAL, before + [step]) == Apply(s, step)
  {
    assert (before + [step])[..|before|] == before;
  }

  lemma SubmittedState(id: string, actor: string) returns (row: Row)
    ensures row.status == PENDING_APPROVAL && row.expiresAt == 10
    ensures Apply(Apply(INITIAL, Call(id, Create(HIGH, None, 10, None), 0, actor)), Call(id, Submit, 1, actor))
            == State(map[id := row], [Event(Created, id, 0, actor), Event(Submitted, id, 1, actor)])
  {
    row := NewRow(Create(HIGH, None, 10, None), 0, actor).(status := PENDING_APPROVAL, updatedAt := 1);
    var s := Apply(INITIAL, Call(id, Create(HIGH, None, 10, None), 0, actor));
    assert s == State(map[id := NewRow(Create(HIGH, None, 10, None), 0, actor)], [Event(Created, id, 0, actor)]);
  }

  lemma SweptState(id: string, row: Row, events: seq<Event>)
    requires row.status == PENDING_APPROVAL && row.expiresAt == 10
    ensures Apply(State(map[id := row], events), Sweep(10, [id]))
            == State(map[id := row.(status := EXPIRED, updatedAt := 10)], events + [Event(Expired, id, 10, "system")])
  {
    var s := State(map[id := row], events);
    assert Expirable(s.rows, id, 10) && Lists([id], s.rows, 10);
    assert [id][..0] == [] && ExpireAll(s, [id], 10) == ExpireOne(s, id, 10);
  }

  lemma ThreeSteps(a: Step, b: Step, c: Step, s1: State, s2: State, s3: State)
    requires s1 == Apply(INITIAL, a) && s2 == Apply(s1, b) && s3 == Apply(s2, c)
    ensures Run(INITIAL, [a] + [b] + [c]) == s3
  {
    RunOne([], a, INITIAL);
    assert [] + [a] == [a];
    RunOne([a], b, s1);
    RunOne([a] + [b], c, s2);
  }

  /** A renewal can approve what nobody approved. */
  lemma ApprovedWithoutApproval(id: string, actor: string)
    ensures var s := Run(INITIAL, RenewedUnapproved(id, actor));
            && id in s.rows && s.rows[id].status == APPROVED
            && (forall i | 0 <= i < |s.events| :: s.events[i].kind != Approved)
  {
    var c0 := Call(id, Create(HIGH, None, 10, None), 0, actor);
    var c1, c2 := Call(id, Submit, 1, actor), Sweep(10, [id]);
    var row := SubmittedState(id, actor);
    var events := [Event(Created, id, 0, actor), Event(Submitted, id, 1, actor)];
    SweptState(id, row, events);
    var s3 := State(map[id := row.(status := EXPIRED, updatedAt := 10)], events + [Event(Expired, id, 10, "system")]);
    ThreeSteps(c0, c1, c2, Apply(INITIAL, c0), State(map[id := row], events), s3);
    RunOne([c0] + [c1] + [c2], Call(id, Renew(20), 11, actor), s3);
  }

  // ----- Expiry and score over runs -----

  // The request went through: its event is the one logged last.
  predicate WentThrough(s: State, t: State, id: string, kind: Kind) {
    |t.events| == |s.events| + 1 && t.events[|s.events|].id == id && t.events[|s.events|].kind == kind
  }

  // The expiry a step gives the exception, if it goes through and gives one.
  function GivenExpiry(s: State, step: Step, id: string): Option<int> {
    if !step.Call? || step.id != id then None
    else
      var t := Apply(s, step);
      match step.req
      case Create(_, _, expiresAt, _) => if WentThrough(s, t, id, Created) then Some(expiresAt) else None
      case Update(_, newExpiresAt, _) => if WentThrough(s, t, id, Updated) then newExpiresAt else None
      case Renew(until) => if WentThrough(s, t, id, Renewed) then Some(until) else None
      case _ => None
  }

  // The last expiry given in the run.
  function LastExpiry(steps: seq<Step>, id: string): Option<int> {
    if steps == [] then None
    else
      var before := steps[..|steps| - 1];
      var given := GivenExpiry(Run(INITIAL, before), steps[|steps| - 1], id);
      if given.Some? then given else LastExpiry(before, id)
  }

  lemma StepKeepsExpiry(s: State, step: Step, id: string)
    requires id in Apply(s, step).rows
    ensures var given := GivenExpiry(s, step, id);
            if given.Some? then Apply(s, step).rows[id].expiresAt == given.value
            else id in s.rows && Apply(s, step).rows[id].expiresAt == s.rows[id].expiresAt
  {
    match step
    case Call(_, _, _, _) =>
    case Sweep(at, order) =>
      if Lists(order, s.rows, at) { SweepExact(s, order, at); }
  }

  /** On every run an exception expires when the last creation, edit or renewal that went through and
      gave an expiry says. */
  lemma {:induction false} ExpiryIsLastGiven(steps: seq<Step>, id: string)
    requires id in Run(INITIAL, steps).rows
    ensures LastExpiry(steps, id) == Some(Run(INITIAL, steps).rows[id].expiresAt)
    decreases |steps|
  {
    if steps != [] {
      var s := Run(INITIAL, steps[..|steps| - 1]);
      StepKeepsExpiry(s, steps[|steps| - 1], id);
      if id in s.rows { ExpiryIsLastGiven(steps[..|steps| - 1], id); }
    }
  }
}
