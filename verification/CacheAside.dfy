/** A versioned table with one active row, a cached copy of the active document in Redis, and
    readers that race with activations. Times are in seconds. */
module CacheAside {
  import opened Common

  const CACHE_TTL: nat := 60

  // How a stored document is read (None when it is unusable), what is used instead of the active
  // one, and the document and version the bootstrap inserts.
  datatype Rules<!D, P> = Rules(read: D -> Option<P>, fallback: P, defaultDocument: D, defaultVersion: string)

  datatype Row<D> = Row(document: D, active: bool)

  type Table<D> = map<string, Row<D>>

  // ----- Transactions on the table -----

  predicate Usable<D, P>(rules: Rules<D, P>, d: D) { rules.read(d).Some? }

  function Created<D, P>(rules: Rules<D, P>, rows: Table<D>, version: string, d: D): Table<D> {
    if Usable(rules, d) && version !in rows then rows[version := Row(d, false)] else rows
  }

  predicate CanActivate<D, P>(rules: Rules<D, P>, rows: Table<D>, version: string) {
    version in rows && Usable(rules, rows[version].document)
  }

  function Activated<D, P>(rules: Rules<D, P>, rows: Table<D>, version: string): Table<D> {
    if CanActivate(rules, rows, version) then map v | v in rows :: rows[v].(active := v == version) else rows
  }

  // The insert of the bootstrap; the unique version column refuses a second default.
  function WithDefault<D, P>(rules: Rules<D, P>, rows: Table<D>): Table<D> {
    if rules.defaultVersion in rows then rows else rows[rules.defaultVersion := Row(rules.defaultDocument, true)]
  }

  function Bootstrapped<D, P>(rules: Rules<D, P>, rows: Table<D>): Table<D> {
    if rows.Keys == {} then WithDefault(rules, rows) else rows
  }

  predicate AtMostOneActive<D>(rows: Table<D>) {
    forall v, w | v in rows && w in rows && rows[v].active && rows[w].active :: v == w
  }

  // The row the query for the active document may return.
  predicate Selects<D>(rows: Table<D>, pick: Option<string>) {
    match pick
    case Some(v) => v in rows && rows[v].active
    case None => forall v | v in rows :: !rows[v].active
  }

  // p is what an active row reads as.
  ghost predicate Serves<D, P>(rules: Rules<D, P>, rows: Table<D>, p: P) {
    exists v | v in rows :: rows[v].active && rules.read(rows[v].document) == Some(p)
  }

  /** Every transaction keeps at most one row active. */
  lemma TransactionsKeepOneActive<D, P>(rules: Rules<D, P>, rows: Table<D>, version: string, d: D)
    requires AtMostOneActive(rows)
    ensures AtMostOneActive(Created(rules, rows, version, d)) && AtMostOneActive(Activated(rules, rows, version))
    ensures AtMostOneActive(Bootstrapped(rules, rows))
  {
  }

  /** Taken apart, the bootstrap's look at an empty table and its insert are harmless if and only if,
      by the time of the insert, the default version exists or still no row is active. */
  lemma SplitBootstrapExactly<D, P>(rules: Rules<D, P>, rows: Table<D>)
    requires AtMostOneActive(rows)
    ensures AtMostOneActive(WithDefault(rules, rows))
            <==> rules.defaultVersion in rows || forall v | v in rows :: !rows[v].active
  {
    var after := WithDefault(rules, rows);
    if v :| rules.defaultVersion !in rows && v in rows && rows[v].active {
      assert after[v].active && after[rules.defaultVersion].active;
    }
  }

  /** It is not: a document created and activated in between leaves two rows active. */
  lemma SplitBootstrapActivatesTwo<D, P>(rules: Rules<D, P>, version: string, d: D)
    requires Usable(rules, d) && version != rules.defaultVersion
    ensures !AtMostOneActive(WithDefault(rules, Activated(rules, Created(rules, map[], version, d), version)))
  {
    var rows := Activated(rules, Created(rules, map[], version, d), version);
    assert rows[version].active;
    SplitBootstrapExactly(rules, rows);
  }

  // ----- The protocol -----

  // A cached copy; `readAt` is when it was read from the database.
  datatype Entry<P> = Entry(policy: P, dead: nat, readAt: nat)

  // A reader that has missed the cache, or that holds a policy it has yet to cache.
  datatype Reader<P> = Missed(startedAt: nat) | Fetched(startedAt: nat, policy: P, readAt: nat)

  // A policy handed to a caller.
  datatype Source = Cache | Database | Fallback

  datatype Answer<P> = Answer(policy: P, startedAt: nat, at: nat, source: Source)

  // The table's contents from `since` on.
  datatype Version<D> = Version(since: nat, rows: Table<D>)

  datatype State<D, P> = State(
    now: nat, rows: Table<D>, cached: Option<Entry<P>>, readers: map<nat, Reader<P>>, started: map<nat, nat>,
    answers: seq<Answer<P>>, history: seq<Version<D>>)

  datatype Step<D> =
    | Tick(dt: nat)
    | Begin(pid: nat)
    | Get(pid: nat, fault: Fault)
    | Query(pid: nat, fault: Fault, pick: Option<string>)
    | SetEx(pid: nat, fault: Fault)
    | Create(version: string, document: D)
    | Activate(version: string)
    | Bootstrap
    | Delete(fault: Fault)

  function Initial<D, P>(rows: Table<D>): State<D, P> {
    State(0, rows, None, map[], map[], [], [Version(0, rows)])
  }

  function Commit<D, P>(s: State<D, P>, rows: Table<D>): State<D, P> {
    s.(rows := rows, history := s.history + [Version(s.now, rows)])
  }

  function Reply<D, P>(s: State<D, P>, pid: nat, answer: Answer<P>): State<D, P> {
    s.(readers := s.readers - {pid}, started := s.started - {pid}, answers := s.answers + [answer])
  }

  function Written<D, P>(s: State<D, P>, r: Reader<P>, fault: Fault): State<D, P>
    requires r.Fetched?
  {
    if fault == NotSent then s else s.(cached := Some(Entry(r.policy, s.now + CACHE_TTL, r.readAt)))
  }

  function Apply<D, P>(rules: Rules<D, P>, s: State<D, P>, step: Step<D>): State<D, P> {
    match step
    case Tick(dt) => s.(now := s.now + dt)
    case Begin(pid) =>
      if pid in s.started || pid in s.readers then s else s.(started := s.started[pid := s.now])
    case Get(pid, fault) =>
      if pid !in s.started then s
      else if fault == Works && s.cached.Some? && s.now < s.cached.value.dead then
        Reply(s, pid, Answer(s.cached.value.policy, s.started[pid], s.now, Cache))
      else s.(started := s.started - {pid}, readers := s.readers[pid := Missed(s.started[pid])])
    case Query(pid, fault, pick) =>
      if !(pid in s.readers && s.readers[pid].Missed? && Selects(s.rows, pick)) then s
      else
        var startedAt := s.readers[pid].startedAt;
        if fault == Works && pick.Some? && Usable(rules, s.rows[pick.value].document) then
          var p := rules.read(s.rows[pick.value].document).value;
          s.(readers := s.readers[pid := Fetched(startedAt, p, s.now)])
        else Reply(s, pid, Answer(rules.fallback, startedAt, s.now, Fallback))
    case SetEx(pid, fault) =>
      if !(pid in s.readers && s.readers[pid].Fetched?) then s
      else
        var r := s.readers[pid];
        Reply(Written(s, r, fault), pid, Answer(r.policy, r.startedAt, s.now, Database))
    case Create(version, d) => Commit(s, Created(rules, s.rows, version, d))
    case Activate(version) => Commit(s, Activated(rules, s.rows, version))
    case Bootstrap => Commit(s, Bootstrapped(rules, s.rows))
    case Delete(fault) => if fault == NotSent then s else s.(cached := None)
  }

  function Run<D, P>(rules: Rules<D, P>, s: State<D, P>, steps: seq<Step<D>>): State<D, P> {
    if steps == [] then s else Apply(rules, Run(rules, s, steps[..|steps| - 1]), steps[|steps| - 1])
  }

  // ----- One call, uninterrupted -----

  // A cached copy without its history, and what a call returns and leaves.
  datatype Copy<P> = Copy(policy: P, dead: nat)

  datatype Result<P> = Result(policy: P, source: Source, cached: Option<Copy<P>>)

  function CopyOf<P>(cached: Option<Entry<P>>): Option<Copy<P>> {
    if cached.Some? then Some(Copy(cached.value.policy, cached.value.dead)) else None
  }

  // Cache first, then the active row, which is cached, then the fallback.
  function Called<D, P>(
    rules: Rules<D, P>, cached: Option<Copy<P>>, rows: Table<D>, now: nat,
    get: Fault, query: Fault, pick: Option<string>, setex: Fault): Result<P>
    requires Selects(rows, pick)
  {
    if get == Works && cached.Some? && now < cached.value.dead then Result(cached.value.policy, Cache, cached)
    else if query == Works && pick.Some? && Usable(rules, rows[pick.value].document) then
      var p := rules.read(rows[pick.value].document).value;
      Result(p, Database, if setex == NotSent then cached else Some(Copy(p, now + CACHE_TTL)))
    else Result(rules.fallback, Fallback, cached)
  }

  lemma BeginAndGet<D, P>(rules: Rules<D, P>, s: State<D, P>, pid: nat, get: Fault) returns (t: State<D, P>)
    requires pid !in s.started && pid !in s.readers
    ensures t == Apply(rules, Apply(rules, s, Begin(pid)), Get(pid, get))
    ensures if get == Works && s.cached.Some? && s.now < s.cached.value.dead then
              t == s.(answers := s.answers + [Answer(s.cached.value.policy, s.now, s.now, Cache)])
            else t == s.(readers := s.readers[pid := Missed(s.now)])
  {
    var b := Apply(rules, s, Begin(pid));
    t := Apply(rules, b, Get(pid, get));
    assert b.started - {pid} == s.started && s.readers - {pid} == s.readers;
  }

  lemma QueryAndSetEx<D, P>(
    rules: Rules<D, P>, s: State<D, P>, pid: nat, query: Fault, pick: Option<string>, setex: Fault)
    returns (u: State<D, P>)
    requires pid !in s.started && pid !in s.readers && Selects(s.rows, pick)
    ensures var t := s.(readers := s.readers[pid := Missed(s.now)]);
            u == Apply(rules, Apply(rules, t, Query(pid, query, pick)), SetEx(pid, setex))
    ensures u.started == s.started && u.readers == s.readers && u.rows == s.rows && u.history == s.history
    ensures var r := Called(rules, CopyOf(s.cached), s.rows, s.now, NotSent, query, pick, setex);
            u.answers == s.answers + [Answer(r.policy, s.now, s.now, r.source)] && CopyOf(u.cached) == r.cached
  {
    var t := s.(readers := s.readers[pid := Missed(s.now)]);
    assert t.readers - {pid} == s.readers && s.started - {pid} == s.started;
    if query == Works && pick.Some? && Usable(rules, s.rows[pick.value].document) {
      var r := Fetched(s.now, rules.read(s.rows[pick.value].document).value, s.now);
      var q := s.(readers := s.readers[pid := r]);
      assert t.readers[pid := r] == q.readers;
      assert Apply(rules, t, Query(pid, query, pick)) == q;
      u := SetExAlone(rules, s, pid, r, setex);
    } else {
      u := Reply(t, pid, Answer(rules.fallback, s.now, s.now, Fallback));
    }
  }

  lemma SetExAlone<D, P>(rules: Rules<D, P>, s: State<D, P>, pid: nat, r: Reader<P>, setex: Fault)
    returns (u: State<D, P>)
    requires pid !in s.started && pid !in s.readers && r.Fetched?
    ensures var q := s.(readers := s.readers[pid := r]); u == Apply(rules, q, SetEx(pid, setex))
    ensures u == Written(s, r, setex).(answers := s.answers + [Answer(r.policy, r.startedAt, s.now, Database)])
  {
    var q := s.(readers := s.readers[pid := r]);
    u := Apply(rules, q, SetEx(pid, setex));
    assert q.readers - {pid} == s.readers && s.started - {pid} == s.started;
  }

  /** With nothing in between, the protocol's four steps answer and cache what a call does. */
  lemma CallIsFourSteps<D, P>(
    rules: Rules<D, P>, s: State<D, P>, pid: nat, get: Fault, query: Fault, pick: Option<string>, setex: Fault)
    returns (u: State<D, P>)
    requires pid !in s.started && pid !in s.readers && Selects(s.rows, pick)
    ensures var t := Apply(rules, Apply(rules, s, Begin(pid)), Get(pid, get));
            u == Apply(rules, Apply(rules, t, Query(pid, query, pick)), SetEx(pid, setex))
    ensures u.started == s.started && u.readers == s.readers && u.rows == s.rows && u.history == s.history
    ensures var r := Called(rules, CopyOf(s.cached), s.rows, s.now, get, query, pick, setex);
            u.answers == s.answers + [Answer(r.policy, s.now, s.now, r.source)] && CopyOf(u.cached) == r.cached
  {
    var t := BeginAndGet(rules, s, pid, get);
    if get == Works && s.cached.Some? && s.now < s.cached.value.dead {
      u := t;
    } else {
      u := QueryAndSetEx(rules, s, pid, query, pick, setex);
    }
  }

  // p was the policy of the active row at instant u.
  ghost predicate ActiveAt<D, P>(rules: Rules<D, P>, history: seq<Version<D>>, p: P, u: nat) {
    exists i | 0 <= i < |history| :: InForce(history, i, u) && Serves(rules, history[i].rows, p)
  }

  predicate InForce<D>(history: seq<Version<D>>, i: nat, u: nat)
    requires i < |history|
  {
    history[i].since <= u && (i + 1 < |history| ==> u <= history[i + 1].since)
  }

  // Every cache write comes at most `delay` after its database read.
  predicate Prompt<D, P>(s: State<D, P>, step: Step<D>, delay: nat) {
    step.SetEx? && step.pid in s.readers && s.readers[step.pid].Fetched? ==> s.now <= s.readers[step.pid].readAt + delay
  }

  predicate PromptRun<D, P>(rules: Rules<D, P>, s: State<D, P>, steps: seq<Step<D>>, delay: nat) {
    steps != [] ==>
      && PromptRun(rules, s, steps[..|steps| - 1], delay)
      && Prompt(Run(rules, s, steps[..|steps| - 1]), steps[|steps| - 1], delay)
  }

  // ----- Invariants -----

  ghost predicate HistoryInv<D, P>(s: State<D, P>) {
    && s.history != []
    && s.history[|s.history| - 1].rows == s.rows
    && (forall i | 0 <= i < |s.history| :: s.history[i].since <= s.now && AtMostOneActive(s.history[i].rows))
    && (forall i | 0 < i < |s.history| :: s.history[i - 1].since <= s.history[i].since)
  }

  // p was active in the database at instant u.
  ghost predicate Genuine<D, P>(rules: Rules<D, P>, s: State<D, P>, p: P, u: nat) {
    u <= s.now && ActiveAt(rules, s.history, p, u)
  }

  ghost predicate ReaderInv<D, P>(rules: Rules<D, P>, s: State<D, P>, r: Reader<P>) {
    match r
    case Missed(startedAt) => startedAt <= s.now
    case Fetched(startedAt, p, readAt) => startedAt <= readAt && Genuine(rules, s, p, readAt)
  }

  ghost predicate EntryInv<D, P>(rules: Rules<D, P>, s: State<D, P>, e: Entry<P>, delay: nat) {
    Genuine(rules, s, e.policy, e.readAt) && e.dead <= e.readAt + delay + CACHE_TTL
  }

  // An answer not from the fallback was the active policy at some instant u: between the call's
  // begin and its end if read from the database, less than 60 + `delay` before its end if cached.
  ghost predicate AnswerInv<D, P>(rules: Rules<D, P>, s: State<D, P>, a: Answer<P>, delay: nat) {
    && a.startedAt <= a.at <= s.now
    && (a.source != Fallback ==>
          exists u: nat :: Fresh(a, u, delay) && ActiveAt(rules, s.history, a.policy, u))
    && (a.source == Fallback ==> a.policy == rules.fallback)
  }

  predicate Fresh<P>(a: Answer<P>, u: nat, delay: nat) {
    && u <= a.at
    && (a.source == Cache ==> a.at < u + CACHE_TTL + delay)
    && (a.source == Database ==> a.startedAt <= u)
  }

  ghost predicate Inv<D, P>(rules: Rules<D, P>, s: State<D, P>, delay: nat) {
    && HistoryInv(s)
    && (s.cached.Some? ==> EntryInv(rules, s, s.cached.value, delay))
    && (forall pid | pid in s.readers :: ReaderInv(rules, s, s.readers[pid]))
    && (forall pid | pid in s.started :: s.started[pid] <= s.now)
    && (forall i | 0 <= i < |s.answers| :: AnswerInv(rules, s, s.answers[i], delay))
  }

  // What was active at an instant stays so when the clock moves or the table changes.
  lemma HistoryKeepsActive<D(!new), P(!new)>(rules: Rules<D, P>, s: State<D, P>, t: State<D, P>, p: P, u: nat)
    requires HistoryInv(s) && u <= s.now && ActiveAt(rules, s.history, p, u)
    requires t.history == s.history || (|t.history| == |s.history| + 1 && t.history[..|s.history|] == s.history
                                        && t.history[|s.history|].since == s.now)
    ensures ActiveAt(rules, t.history, p, u)
  {
    var i :| 0 <= i < |s.history| && InForce(s.history, i, u) && Serves(rules, s.history[i].rows, p);
    assert t.history[i] == s.history[i];
    assert i + 1 < |s.history| ==> t.history[i + 1] == s.history[i + 1];
    assert InForce(t.history, i, u);
  }

  // Steps that move the clock or the table keep every promise made so far.
  lemma PromisesKept<D(!new), P(!new)>(rules: Rules<D, P>, s: State<D, P>, t: State<D, P>, delay: nat)
    requires Inv(rules, s, delay) && HistoryInv(t) && s.now <= t.now
    requires t.cached == s.cached && t.readers == s.readers && t.started == s.started && t.answers == s.answers
    requires t.history == s.history || (|t.history| == |s.history| + 1 && t.history[..|s.history|] == s.history
                                        && t.history[|s.history|].since == s.now)
    ensures Inv(rules, t, delay)
  {
    forall p, u: nat | u <= s.now && ActiveAt(rules, s.history, p, u)
      ensures ActiveAt(rules, t.history, p, u)
    {
      HistoryKeepsActive(rules, s, t, p, u);
    }
    forall pid | pid in t.readers
      ensures ReaderInv(rules, t, t.readers[pid])
    {
      assert ReaderInv(rules, s, s.readers[pid]);
    }
    forall i | 0 <= i < |t.answers|
      ensures AnswerInv(rules, t, t.answers[i], delay)
    {
      assert AnswerInv(rules, s, s.answers[i], delay);
    }
  }

  lemma CommitKeepsInv<D(!new), P(!new)>(rules: Rules<D, P>, s: State<D, P>, rows: Table<D>, delay: nat)
    requires Inv(rules, s, delay) && AtMostOneActive(rows)
    ensures Inv(rules, Commit(s, rows), delay)
  {
    PromisesKept(rules, s, Commit(s, rows), delay);
  }

  lemma ReplyKeepsInv<D(!new), P(!new)>(rules: Rules<D, P>, s: State<D, P>, pid: nat, a: Answer<P>, delay: nat)
    requires Inv(rules, s, delay) && AnswerInv(rules, s, a, delay)
    ensures Inv(rules, Reply(s, pid, a), delay)
  {
    var t := Reply(s, pid, a);
    forall i | 0 <= i < |t.answers|
      ensures AnswerInv(rules, t, t.answers[i], delay)
    {
      assert i < |s.answers| ==> AnswerInv(rules, s, s.answers[i], delay);
    }
    forall q | q in t.readers
      ensures ReaderInv(rules, t, t.readers[q])
    {
      assert ReaderInv(rules, s, s.readers[q]);
    }
  }

  lemma GetKeepsInv<D(!new), P(!new)>(rules: Rules<D, P>, s: State<D, P>, pid: nat, fault: Fault, delay: nat)
    requires Inv(rules, s, delay)
    ensures Inv(rules, Apply(rules, s, Get(pid, fault)), delay)
  {
    if pid in s.started && fault == Works && s.cached.Some? && s.now < s.cached.value.dead {
      var a := Answer(s.cached.value.policy, s.started[pid], s.now, Cache);
      assert Fresh(a, s.cached.value.readAt, delay);
      ReplyKeepsInv(rules, s, pid, a, delay);
    }
  }

  lemma FetchKeepsInv<D(!new), P(!new)>(rules: Rules<D, P>, s: State<D, P>, pid: nat, v: string, delay: nat)
    requires Inv(rules, s, delay) && pid in s.readers && s.readers[pid].Missed?
    requires v in s.rows && s.rows[v].active && Usable(rules, s.rows[v].document)
    ensures var r := Fetched(s.readers[pid].startedAt, rules.read(s.rows[v].document).value, s.now);
            Inv(rules, s.(readers := s.readers[pid := r]), delay)
  {
    var p := rules.read(s.rows[v].document).value;
    ActiveNow(rules, s, v, p);
    assert ReaderInv(rules, s, s.readers[pid]);
    ReaderKeepsInv(rules, s, pid, Fetched(s.readers[pid].startedAt, p, s.now), delay);
  }

  lemma ActiveNow<D(!new), P(!new)>(rules: Rules<D, P>, s: State<D, P>, v: string, p: P)
    requires HistoryInv(s) && v in s.rows && s.rows[v].active && rules.read(s.rows[v].document) == Some(p)
    ensures ActiveAt(rules, s.history, p, s.now)
  {
    var last := |s.history| - 1;
    assert Serves(rules, s.history[last].rows, p) && InForce(s.history, last, s.now);
  }

  lemma ReaderKeepsInv<D(!new), P(!new)>(rules: Rules<D, P>, s: State<D, P>, pid: nat, r: Reader<P>, delay: nat)
    requires Inv(rules, s, delay) && ReaderInv(rules, s, r)
    ensures Inv(rules, s.(readers := s.readers[pid := r]), delay)
  {
    var t := s.(readers := s.readers[pid := r]);
    forall q | q in t.readers
      ensures ReaderInv(rules, t, t.readers[q])
    {
      assert q != pid ==> ReaderInv(rules, s, s.readers[q]);
    }
    forall i | 0 <= i < |t.answers|
      ensures AnswerInv(rules, t, t.answers[i], delay)
    {
      assert AnswerInv(rules, s, s.answers[i], delay);
    }
  }

  lemma QueryKeepsInv<D(!new), P(!new)>(
    rules: Rules<D, P>, s: State<D, P>, pid: nat, fault: Fault, pick: Option<string>, delay: nat)
    requires Inv(rules, s, delay)
    ensures Inv(rules, Apply(rules, s, Query(pid, fault, pick)), delay)
  {
    if pid in s.readers && s.readers[pid].Missed? && Selects(s.rows, pick) {
      assert ReaderInv(rules, s, s.readers[pid]);
      if fault == Works && pick.Some? && Usable(rules, s.rows[pick.value].document) {
        FetchKeepsInv(rules, s, pid, pick.value, delay);
      } else {
        ReplyKeepsInv(rules, s, pid, Answer(rules.fallback, s.readers[pid].startedAt, s.now, Fallback), delay);
      }
    }
  }

  lemma WriteKeepsInv<D(!new), P(!new)>(rules: Rules<D, P>, s: State<D, P>, r: Reader<P>, fault: Fault, delay: nat)
    requires Inv(rules, s, delay) && r.Fetched? && ReaderInv(rules, s, r) && s.now <= r.readAt + delay
    ensures Inv(rules, Written(s, r, fault), delay)
  {
    var t := Written(s, r, fault);
    if fault != NotSent {
      assert EntryInv(rules, t, t.cached.value, delay);
    }
    PromisesExceptCache(rules, s, t, delay);
  }

  lemma FetchedAnswer<D(!new), P(!new)>(rules: Rules<D, P>, s: State<D, P>, r: Reader<P>, fault: Fault, delay: nat)
    requires r.Fetched? && ReaderInv(rules, s, r)
    ensures AnswerInv(rules, Written(s, r, fault), Answer(r.policy, r.startedAt, s.now, Database), delay)
  {
    assert Fresh(Answer(r.policy, r.startedAt, s.now, Database), r.readAt, delay);
  }

  lemma SetExKeepsInv<D(!new), P(!new)>(rules: Rules<D, P>, s: State<D, P>, pid: nat, fault: Fault, delay: nat)
    requires Inv(rules, s, delay) && Prompt(s, SetEx(pid, fault), delay)
    ensures Inv(rules, Apply(rules, s, SetEx(pid, fault)), delay)
  {
    if pid in s.readers && s.readers[pid].Fetched? {
      var r := s.readers[pid];
      assert ReaderInv(rules, s, r);
      WriteKeepsInv(rules, s, r, fault, delay);
      FetchedAnswer(rules, s, r, fault, delay);
      ReplyKeepsInv(rules, Written(s, r, fault), pid, Answer(r.policy, r.startedAt, s.now, Database), delay);
    }
  }

  lemma PromisesExceptCache<D(!new), P(!new)>(rules: Rules<D, P>, s: State<D, P>, t: State<D, P>, delay: nat)
    requires Inv(rules, s, delay) && t == s.(cached := t.cached)
    requires t.cached.Some? ==> EntryInv(rules, t, t.cached.value, delay)
    ensures Inv(rules, t, delay)
  {
    forall pid | pid in t.readers
      ensures ReaderInv(rules, t, t.readers[pid])
    {
      assert ReaderInv(rules, s, s.readers[pid]);
    }
    forall i | 0 <= i < |t.answers|
      ensures AnswerInv(rules, t, t.answers[i], delay)
    {
      assert AnswerInv(rules, s, s.answers[i], delay);
    }
  }

  lemma BeginKeepsInv<D(!new), P(!new)>(rules: Rules<D, P>, s: State<D, P>, pid: nat, delay: nat)
    requires Inv(rules, s, delay)
    ensures Inv(rules, Apply(rules, s, Begin(pid)), delay)
  {
    var t := Apply(rules, s, Begin(pid));
    forall i | 0 <= i < |t.answers|
      ensures AnswerInv(rules, t, t.answers[i], delay)
    {
      assert AnswerInv(rules, s, s.answers[i], delay);
    }
  }

  lemma CreateKeepsInv<D(!new), P(!new)>(rules: Rules<D, P>, s: State<D, P>, version: string, d: D, delay: nat)
    requires Inv(rules, s, delay)
    ensures Inv(rules, Commit(s, Created(rules, s.rows, version, d)), delay)
  {
    TransactionsKeepOneActive(rules, s.rows, version, d);
    CommitKeepsInv(rules, s, Created(rules, s.rows, version, d), delay);
  }

  lemma ActivateKeepsInv<D(!new), P(!new)>(rules: Rules<D, P>, s: State<D, P>, version: string, delay: nat)
    requires Inv(rules, s, delay)
    ensures Inv(rules, Commit(s, Activated(rules, s.rows, version)), delay)
  {
    TransactionsKeepOneActive(rules, s.rows, version, rules.defaultDocument);
    CommitKeepsInv(rules, s, Activated(rules, s.rows, version), delay);
  }

  lemma BootstrapKeepsInv<D(!new), P(!new)>(rules: Rules<D, P>, s: State<D, P>, delay: nat)
    requires Inv(rules, s, delay)
    ensures Inv(rules, Commit(s, Bootstrapped(rules, s.rows)), delay)
  {
    TransactionsKeepOneActive(rules, s.rows, "", rules.defaultDocument);
    CommitKeepsInv(rules, s, Bootstrapped(rules, s.rows), delay);
  }

  lemma TickKeepsInv<D(!new), P(!new)>(rules: Rules<D, P>, s: State<D, P>, dt: nat, delay: nat)
    requires Inv(rules, s, delay)
    ensures Inv(rules, s.(now := s.now + dt), delay)
  {
    PromisesKept(rules, s, s.(now := s.now + dt), delay);
  }

  lemma DeleteKeepsInv<D(!new), P(!new)>(rules: Rules<D, P>, s: State<D, P>, fault: Fault, delay: nat)
    requires Inv(rules, s, delay)
    ensures Inv(rules, if fault == NotSent then s else s.(cached := None), delay)
  {
    PromisesExceptCache(rules, s, if fault == NotSent then s else s.(cached := None), delay);
  }

  lemma StepKeepsInv<D(!new), P(!new)>(rules: Rules<D, P>, s: State<D, P>, step: Step<D>, delay: nat)
    requires Inv(rules, s, delay) && Prompt(s, step, delay)
    ensures Inv(rules, Apply(rules, s, step), delay)
  {
    match step
    case Tick(dt) => TickKeepsInv(rules, s, dt, delay);
    case Begin(pid) => BeginKeepsInv(rules, s, pid, delay);
    case Get(pid, fault) => GetKeepsInv(rules, s, pid, fault, delay);
    case Query(pid, fault, pick) => QueryKeepsInv(rules, s, pid, fault, pick, delay);
    case SetEx(pid, fault) => SetExKeepsInv(rules, s, pid, fault, delay);
    case Create(version, d) => CreateKeepsInv(rules, s, version, d, delay);
    case Activate(version) => ActivateKeepsInv(rules, s, version, delay);
    case Bootstrap => BootstrapKeepsInv(rules, s, delay);
    case Delete(fault) => DeleteKeepsInv(rules, s, fault, delay);
  }

  lemma {:induction false} RunKeepsInv<D(!new), P(!new)>(
    rules: Rules<D, P>, rows: Table<D>, steps: seq<Step<D>>, delay: nat)
    requires AtMostOneActive(rows) && PromptRun(rules, Initial(rows), steps, delay)
    ensures Inv(rules, Run(rules, Initial(rows), steps), delay)
    decreases |steps|
  {
    if steps != [] {
      RunKeepsInv(rules, rows, steps[..|steps| - 1], delay);
      StepKeepsInv(rules, Run(rules, Initial(rows), steps[..|steps| - 1]), steps[|steps| - 1], delay);
    }
  }

  // ----- What a caller can rely on -----

  /** Bounded staleness: on every interleaving in which each cache write follows its database read
      by at most `delay`, whatever fails, a policy served from the cache at time t was the active
      one at some instant after t - 60 - delay. */
  lemma CachedAnswersAreFresh<D(!new), P(!new)>(
    rules: Rules<D, P>, rows: Table<D>, steps: seq<Step<D>>, delay: nat, i: nat) returns (u: nat)
    requires AtMostOneActive(rows) && PromptRun(rules, Initial(rows), steps, delay)
    requires i < |Run(rules, Initial(rows), steps).answers|
    requires Run(rules, Initial(rows), steps).answers[i].source == Cache
    ensures var s := Run(rules, Initial(rows), steps);
            s.answers[i].at < u + 60 + delay && u <= s.answers[i].at
            && ActiveAt(rules, s.history, s.answers[i].policy, u)
  {
    RunKeepsInv(rules, rows, steps, delay);
    var s := Run(rules, Initial(rows), steps);
    assert AnswerInv(rules, s, s.answers[i], delay);
    u :| Fresh(s.answers[i], u, delay) && ActiveAt(rules, s.history, s.answers[i].policy, u);
  }

  // p came into force with the k-th contents of the table, at least 60 + delay before the call
  // began, and stayed in force through every later change until the call ended.
  ghost predicate SettledFor<D, P>(rules: Rules<D, P>, s: State<D, P>, a: Answer<P>, k: nat, delay: nat, p: P) {
    && k < |s.history|
    && s.history[k].since + 60 + delay <= a.startedAt
    && (forall j | k <= j < |s.history| && s.history[j].since <= a.at :: Serves(rules, s.history[j].rows, p))
  }

  // Every query for the active row is answered.
  predicate Reliable<D>(steps: seq<Step<D>>) {
    forall i | 0 <= i < |steps| && steps[i].Query? :: steps[i].fault == Works
  }

  // No active row is usable.
  predicate Idle<D, P>(rules: Rules<D, P>, rows: Table<D>) {
    forall v | v in rows && rows[v].active :: !Usable(rules, rows[v].document)
  }

  ghost predicate IdleAt<D, P>(rules: Rules<D, P>, history: seq<Version<D>>, u: nat) {
    exists i | 0 <= i < |history| :: InForce(history, i, u) && Idle(rules, history[i].rows)
  }

  ghost predicate FallbackInv<D, P>(rules: Rules<D, P>, s: State<D, P>) {
    forall i | 0 <= i < |s.answers| && s.answers[i].source == Fallback ::
      s.answers[i].at <= s.now && IdleAt(rules, s.history, s.answers[i].at)
  }

  lemma HistoryKeepsIdle<D, P>(rules: Rules<D, P>, history: seq<Version<D>>, next: Version<D>, u: nat)
    requires IdleAt(rules, history, u) && u <= next.since
    ensures IdleAt(rules, history + [next], u)
  {
    var i :| 0 <= i < |history| && InForce(history, i, u) && Idle(rules, history[i].rows);
    assert InForce(history + [next], i, u) && (history + [next])[i] == history[i];
  }

  lemma StepKeepsFallbackInv<D, P>(rules: Rules<D, P>, s: State<D, P>, step: Step<D>)
    requires HistoryInv(s) && FallbackInv(rules, s) && (step.Query? ==> step.fault == Works)
    ensures FallbackInv(rules, Apply(rules, s, step))
  {
    var t := Apply(rules, s, step);
    var last := |s.history| - 1;
    assert InForce(s.history, last, s.now);
    forall i | 0 <= i < |t.answers| && t.answers[i].source == Fallback
      ensures t.answers[i].at <= t.now && IdleAt(rules, t.history, t.answers[i].at)
    {
      if i < |s.answers| {
        assert t.answers[i] == s.answers[i];
        if t.history != s.history {
          HistoryKeepsIdle(rules, s.history, Version(s.now, t.rows), s.answers[i].at);
        }
      } else {
        assert step.Query? && Idle(rules, s.history[last].rows);
      }
    }
  }

  // While queries are answered, the fallback is used only when no usable row is active.
  lemma {:induction false} FallbacksAreIdle<D(!new), P(!new)>(
    rules: Rules<D, P>, rows: Table<D>, steps: seq<Step<D>>, delay: nat)
    requires AtMostOneActive(rows) && PromptRun(rules, Initial(rows), steps, delay) && Reliable(steps)
    ensures FallbackInv(rules, Run(rules, Initial(rows), steps))
    decreases |steps|
  {
    if steps != [] {
      var before := steps[..|steps| - 1];
      assert forall i | 0 <= i < |before| :: before[i] == steps[i];
      FallbacksAreIdle(rules, rows, before, delay);
      RunKeepsInv(rules, rows, before, delay);
      StepKeepsFallbackInv(rules, Run(rules, Initial(rows), before), steps[|steps| - 1]);
    }
  }

  /** Convergence: a call that begins at least 60 + delay after an activation returns the activated
      policy until the next activation, or the fallback; never the fallback if queries are answered. */
  lemma SettledCallsAgree<D(!new), P(!new)>(
    rules: Rules<D, P>, rows: Table<D>, steps: seq<Step<D>>, delay: nat, i: nat, k: nat, p: P)
    requires AtMostOneActive(rows) && PromptRun(rules, Initial(rows), steps, delay)
    requires i < |Run(rules, Initial(rows), steps).answers|
    requires var s := Run(rules, Initial(rows), steps); SettledFor(rules, s, s.answers[i], k, delay, p)
    ensures var a := Run(rules, Initial(rows), steps).answers[i];
            (a.source == Fallback && !Reliable(steps)) || a.policy == p
  {
    RunKeepsInv(rules, rows, steps, delay);
    var s := Run(rules, Initial(rows), steps);
    var a := s.answers[i];
    assert AnswerInv(rules, s, a, delay);
    if a.source != Fallback {
      var u: nat :| Fresh(a, u, delay) && ActiveAt(rules, s.history, a.policy, u);
      SettledVersion(rules, s, a, k, delay, u, p);
    } else if Reliable(steps) {
      FallbacksAreIdle(rules, rows, steps, delay);
      SettledIsNotIdle(rules, s, a, k, delay, p);
    }
  }

  lemma SettledIsNotIdle<D(!new), P(!new)>(rules: Rules<D, P>, s: State<D, P>, a: Answer<P>, k: nat, delay: nat, p: P)
    requires HistoryInv(s) && SettledFor(rules, s, a, k, delay, p) && a.startedAt <= a.at
    ensures !IdleAt(rules, s.history, a.at)
  {
    forall j | 0 <= j < |s.history| && InForce(s.history, j, a.at)
      ensures !Idle(rules, s.history[j].rows)
    {
      if j < k { SinceIncreases(s, j + 1, k); }
      assert Serves(rules, s.history[j].rows, p);
    }
  }

  lemma SettledVersion<D(!new), P(!new)>(
    rules: Rules<D, P>, s: State<D, P>, a: Answer<P>, k: nat, delay: nat, u: nat, p: P)
    requires HistoryInv(s) && SettledFor(rules, s, a, k, delay, p) && s.history[k].since < u <= a.at
    requires ActiveAt(rules, s.history, a.policy, u)
    ensures a.policy == p
  {
    var j :| 0 <= j < |s.history| && InForce(s.history, j, u) && Serves(rules, s.history[j].rows, a.policy);
    if j < k { SinceIncreases(s, j + 1, k); }
    assert Serves(rules, s.history[j].rows, p) && AtMostOneActive(s.history[j].rows);
  }

  lemma {:induction false} SinceIncreases<D, P>(s: State<D, P>, i: nat, j: nat)
    requires HistoryInv(s) && i <= j < |s.history|
    ensures s.history[i].since <= s.history[j].since
    decreases j
  {
    if i < j { SinceIncreases(s, i, j - 1); }
  }

  // What any rules hand out: the fallback, or something some document reads as.
  ghost predicate Readable<D(!new), P>(rules: Rules<D, P>, p: P) {
    p == rules.fallback || exists d :: rules.read(d) == Some(p)
  }

  ghost predicate OnlyReadable<D(!new), P>(rules: Rules<D, P>, s: State<D, P>) {
    && (s.cached.Some? ==> Readable(rules, s.cached.value.policy))
    && (forall pid | pid in s.readers && s.readers[pid].Fetched? :: Readable(rules, s.readers[pid].policy))
    && (forall i | 0 <= i < |s.answers| :: Readable(rules, s.answers[i].policy))
  }

  lemma StepKeepsReadable<D(!new), P(!new)>(rules: Rules<D, P>, s: State<D, P>, step: Step<D>)
    requires OnlyReadable(rules, s)
    ensures OnlyReadable(rules, Apply(rules, s, step))
  {
  }

  /** On every interleaving, with any faults and any delays, callers only ever receive documents
      that passed the reader's checks, or the fallback, although a cache hit re-checks nothing. */
  lemma {:induction false} AnswersAreReadable<D(!new), P(!new)>(rules: Rules<D, P>, rows: Table<D>, steps: seq<Step<D>>)
    ensures OnlyReadable(rules, Run(rules, Initial(rows), steps))
    decreases |steps|
  {
    if steps != [] {
      AnswersAreReadable(rules, rows, steps[..|steps| - 1]);
      StepKeepsReadable(rules, Run(rules, Initial(rows), steps[..|steps| - 1]), steps[|steps| - 1]);
    }
  }

  /** On every interleaving at most one row is active. */
  lemma {:induction false} AlwaysOneActive<D(!new), P(!new)>(rules: Rules<D, P>, rows: Table<D>, steps: seq<Step<D>>)
    requires AtMostOneActive(rows)
    ensures AtMostOneActive(Run(rules, Initial(rows), steps).rows)
    decreases |steps|
  {
    if steps != [] {
      AlwaysOneActive(rules, rows, steps[..|steps| - 1]);
      var s := Run(rules, Initial(rows), steps[..|steps| - 1]);
      match steps[|steps| - 1] {
        case Create(version, d) => TransactionsKeepOneActive(rules, s.rows, version, d);
        case Activate(version) => TransactionsKeepOneActive(rules, s.rows, version, rules.defaultDocument);
        case Bootstrap => TransactionsKeepOneActive(rules, s.rows, "", rules.defaultDocument);
        case _ =>
      }
    }
  }
}
