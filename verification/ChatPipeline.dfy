/** The chat pipeline: access, rate limit, input checks, cache, provider, output filter and audit,
    over one expiring cache shared by any number of interleaved requests. Times are seconds.
    Nothing is assumed of the inspections, of access control or of the cache keys. */
module ChatPipeline {
  import opened Common

  datatype Request = Request(user: string, role: string, model: string, prompt: string)

  datatype Action = ALLOW | SANITIZE | BLOCK | ERROR

  datatype Dlp = Dlp(sanitized: string, pii: bool, action: Action, risk: int)
  datatype Injection = Injection(action: Action, risk: int)
  datatype Filtered = Filtered(action: Action, sanitized: string, risk: int)

  // What the handler consults, P being the policies: access control, the inspections of prompt,
  // sanitized prompt and response, and whether, under which key and for how long answers are cached.
  datatype Guards<!P> = Guards(
    allowed: (Request, P) -> bool, dlp: string -> Dlp, injection: (string, P) -> Injection,
    filter: (string, P) -> Filtered, supported: Request -> bool, caching: P -> bool, key: Request -> string, ttl: nat)

  function SafePrompt<P>(g: Guards<P>, r: Request): string { g.dlp(r.prompt).sanitized }

  function InputVerdict<P>(g: Guards<P>, r: Request, p: P): Injection { g.injection(SafePrompt(g, r), p) }

  function InputRisk<P>(g: Guards<P>, r: Request, p: P): int {
    var dlp, inj := g.dlp(r.prompt).risk, InputVerdict(g, r, p).risk;
    if dlp >= inj then dlp else inj
  }

  // May be sent upstream under this policy.
  predicate Cleared<P>(g: Guards<P>, r: Request, p: P) {
    g.allowed(r, p) && InputVerdict(g, r, p).action != BLOCK
  }

  // ----- Outcomes and their audit records -----

  datatype Reason = ModelDenied | InjectionBlocked | ResponseBlocked

  datatype Outcome =
    | Answered(body: string, hit: bool, action: Action, risk: int, made: nat)
    | Refused(reason: Reason, blockRisk: int)
    | Upstream(status: int, errorRisk: int)
    | TooManyRequests
    | LimiterDown
    | Unsupported
    | Crashed

  datatype Reply<P> = Reply(pid: nat, request: Request, policy: P, outcome: Outcome, at: nat)

  datatype Audit = Audit(
    pid: nat, user: string, role: string, model: string, action: Action, status: int, hit: bool, risk: int)

  // The record an outcome must leave: none for the limiter's answers and for failures outside the
  // provider call's own error handling.
  function AuditOf<P>(r: Reply<P>): seq<Audit> {
    var q := r.request;
    match r.outcome
    case Answered(_, hit, action, risk, _) => [Audit(r.pid, q.user, q.role, q.model, action, 200, hit, risk)]
    case Refused(_, risk) => [Audit(r.pid, q.user, q.role, q.model, BLOCK, 403, false, risk)]
    case Upstream(status, risk) => [Audit(r.pid, q.user, q.role, q.model, ERROR, status, false, risk)]
    case TooManyRequests => []
    case LimiterDown => []
    case Unsupported => []
    case Crashed => []
  }

  function AuditTrail<P>(replies: seq<Reply<P>>): seq<Audit> {
    if replies == [] then [] else AuditTrail(replies[..|replies| - 1]) + AuditOf(replies[|replies| - 1])
  }

  // ----- The protocol -----

  datatype Limiter = Pass | Exceeded | Down

  // What the provider call does: text, an HTTP error, or any other exception.
  datatype Provider = Text(raw: string) | HttpError(status: int) | Exception

  // `made` numbers the generation an entry or an answer comes from.
  datatype Entry = Entry(response: string, dead: nat, made: nat)

  datatype Session<P> = Session(request: Request, policy: P, asked: bool)

  // A prompt sent upstream.
  datatype UpstreamCall<P> = UpstreamCall(pid: nat, request: Request, policy: P, prompt: string)

  // A provider text that passed the output filter, and when.
  datatype Generation<P> = Generation(request: Request, policy: P, raw: string, at: nat)

  datatype State<P> = State(
    now: nat, entries: map<string, Entry>, sessions: map<nat, Session<P>>, calls: seq<UpstreamCall<P>>,
    generations: seq<Generation<P>>, replies: seq<Reply<P>>, audits: seq<Audit>)

  function Initial<P>(): State<P> { State(0, map[], map[], [], [], [], []) }

  datatype Step<P> =
    | Tick(dt: nat)
    | Begin(pid: nat, request: Request, policy: P, limiter: Limiter)
    | Lookup(pid: nat, fault: Fault)
    | Finish(pid: nat, provider: Provider, fault: Fault)
    | ClearCache

  function End<P>(s: State<P>, pid: nat, r: Request, p: P, outcome: Outcome, audits: seq<Audit>): State<P> {
    s.(sessions := s.sessions - {pid}, replies := s.replies + [Reply(pid, r, p, outcome, s.now)],
       audits := s.audits + audits)
  }

  function Record(pid: nat, r: Request, action: Action, status: int, hit: bool, risk: int): seq<Audit> {
    [Audit(pid, r.user, r.role, r.model, action, status, hit, risk)]
  }

  // Access control, rate limiting and the two input inspections, in this order.
  function AfterBegin<P>(g: Guards<P>, s: State<P>, pid: nat, r: Request, p: P, limiter: Limiter): State<P> {
    if !g.allowed(r, p) then
      End(s, pid, r, p, Refused(ModelDenied, 75), Record(pid, r, BLOCK, 403, false, 75))
    else if limiter == Exceeded then End(s, pid, r, p, TooManyRequests, [])
    else if limiter == Down then End(s, pid, r, p, LimiterDown, [])
    else if InputVerdict(g, r, p).action == BLOCK then
      var risk := InputRisk(g, r, p);
      End(s, pid, r, p, Refused(InjectionBlocked, risk), Record(pid, r, BLOCK, 403, false, risk))
    else s.(sessions := s.sessions[pid := Session(r, p, false)])
  }

  predicate Hit<P>(g: Guards<P>, s: State<P>, r: Request, p: P, fault: Fault) {
    g.caching(p) && fault == Works && g.key(r) in s.entries && s.now < s.entries[g.key(r)].dead
  }

  function AfterLookup<P>(g: Guards<P>, s: State<P>, pid: nat, r: Request, p: P, fault: Fault): State<P> {
    if Hit(g, s, r, p, fault) then
      var dlp := g.dlp(r.prompt);
      var action := if dlp.pii then dlp.action else ALLOW;
      var risk := InputRisk(g, r, p);
      var e := s.entries[g.key(r)];
      End(s, pid, r, p, Answered(e.response, true, action, risk, e.made), Record(pid, r, action, 200, true, risk))
    else if !g.supported(r) then End(s, pid, r, p, Unsupported, [])
    else s.(sessions := s.sessions[pid := Session(r, p, true)],
            calls := s.calls + [UpstreamCall(pid, r, p, SafePrompt(g, r))])
  }

  // What a text that passed the filter leaves behind.
  function Stored<P>(g: Guards<P>, s: State<P>, r: Request, p: P, raw: string, fault: Fault): State<P> {
    var body := g.filter(raw, p).sanitized;
    var t := s.(generations := s.generations + [Generation(r, p, raw, s.now)]);
    if g.caching(p) && body != "" && fault != NotSent then
      t.(entries := s.entries[g.key(r) := Entry(body, s.now + g.ttl, |s.generations|)])
    else t
  }

  function AfterText<P>(g: Guards<P>, s: State<P>, pid: nat, r: Request, p: P, raw: string, fault: Fault): State<P> {
    var f := g.filter(raw, p);
    var risk := InputRisk(g, r, p);
    if f.action == BLOCK then
      var worst := if risk >= f.risk then risk else f.risk;
      End(s, pid, r, p, Refused(ResponseBlocked, worst), Record(pid, r, BLOCK, 403, false, worst))
    else
      var action := if g.dlp(r.prompt).action == SANITIZE || f.action == SANITIZE then SANITIZE else ALLOW;
      End(Stored(g, s, r, p, raw, fault), pid, r, p,
          Answered(f.sanitized, false, action, risk, |s.generations|), Record(pid, r, action, 200, false, risk))
  }

  function AfterFinish<P>(g: Guards<P>, s: State<P>, pid: nat, r: Request, p: P, provider: Provider,
      fault: Fault): State<P> {
    match provider
    case Exception => End(s, pid, r, p, Crashed, [])
    case HttpError(status) =>
      var risk := InputRisk(g, r, p);
      End(s, pid, r, p, Upstream(status, risk), Record(pid, r, ERROR, status, false, risk))
    case Text(raw) => AfterText(g, s, pid, r, p, raw, fault)
  }

  function Apply<P>(g: Guards<P>, s: State<P>, step: Step<P>): State<P> {
    match step
    case Tick(dt) => s.(now := s.now + dt)
    case Begin(pid, r, p, limiter) => if pid in s.sessions then s else AfterBegin(g, s, pid, r, p, limiter)
    case Lookup(pid, fault) =>
      if pid in s.sessions && !s.sessions[pid].asked then
        AfterLookup(g, s, pid, s.sessions[pid].request, s.sessions[pid].policy, fault)
      else s
    case Finish(pid, provider, fault) =>
      if pid in s.sessions && s.sessions[pid].asked then
        AfterFinish(g, s, pid, s.sessions[pid].request, s.sessions[pid].policy, provider, fault)
      else s
    case ClearCache => s.(entries := map[])
  }

  function Run<P>(g: Guards<P>, s: State<P>, steps: seq<Step<P>>): State<P> {
    if steps == [] then s else Apply(g, Run(g, s, steps[..|steps| - 1]), steps[|steps| - 1])
  }

  // ----- One request, uninterrupted -----

  predicate Admitted<P>(g: Guards<P>, r: Request, p: P, limiter: Limiter) {
    g.allowed(r, p) && limiter == Pass && InputVerdict(g, r, p).action != BLOCK
  }

  function Asked<P>(g: Guards<P>, s: State<P>, pid: nat, r: Request, p: P): State<P> {
    s.(calls := s.calls + [UpstreamCall(pid, r, p, SafePrompt(g, r))])
  }

  lemma RefusedAlone<P>(g: Guards<P>, s: State<P>, pid: nat, r: Request, p: P, limiter: Limiter, lookup: Fault,
      provider: Provider, write: Fault)
    requires s.sessions == map[] && !Admitted(g, r, p, limiter)
    ensures Apply(g, Apply(g, Apply(g, s, Begin(pid, r, p, limiter)), Lookup(pid, lookup)),
                  Finish(pid, provider, write))
            == AfterBegin(g, s, pid, r, p, limiter)
  {
    var t := Apply(g, s, Begin(pid, r, p, limiter));
    assert pid !in t.sessions;
  }

  lemma AdmittedAlone<P>(g: Guards<P>, s: State<P>, pid: nat, r: Request, p: P, limiter: Limiter)
    requires s.sessions == map[] && Admitted(g, r, p, limiter)
    ensures Apply(g, s, Begin(pid, r, p, limiter)) == s.(sessions := map[pid := Session(r, p, false)])
  {
  }

  // A session map that is dropped at the end leaves no trace.
  lemma LookupAlone<P>(g: Guards<P>, s: State<P>, pid: nat, r: Request, p: P, lookup: Fault, provider: Provider,
      write: Fault)
    requires s.sessions == map[]
    ensures var t := Apply(g, s.(sessions := map[pid := Session(r, p, false)]), Lookup(pid, lookup));
            if Hit(g, s, r, p, lookup) || !g.supported(r) then
              t == AfterLookup(g, s, pid, r, p, lookup) && pid !in t.sessions
            else
              t == Asked(g, s, pid, r, p).(sessions := map[pid := Session(r, p, true)])
  {
    var u := s.(sessions := map[pid := Session(r, p, false)]);
    assert Hit(g, u, r, p, lookup) == Hit(g, s, r, p, lookup);
    assert u.sessions - {pid} == s.sessions - {pid};
    assert u.sessions[pid := Session(r, p, true)] == map[pid := Session(r, p, true)];
  }

  lemma FinishAlone<P>(g: Guards<P>, s: State<P>, pid: nat, r: Request, p: P, provider: Provider, write: Fault)
    requires s.sessions == map[]
    ensures Apply(g, s.(sessions := map[pid := Session(r, p, true)]), Finish(pid, provider, write))
            == AfterFinish(g, s, pid, r, p, provider, write)
  {
    var u := s.(sessions := map[pid := Session(r, p, true)]);
    assert u.sessions - {pid} == s.sessions - {pid};
  }

  // The handler run from start to end with nothing in between.
  function Handled<P>(g: Guards<P>, s: State<P>, pid: nat, r: Request, p: P, limiter: Limiter, lookup: Fault,
      provider: Provider, write: Fault): State<P> {
    if !Admitted(g, r, p, limiter) then AfterBegin(g, s, pid, r, p, limiter)
    else if Hit(g, s, r, p, lookup) || !g.supported(r) then AfterLookup(g, s, pid, r, p, lookup)
    else AfterFinish(g, Asked(g, s, pid, r, p), pid, r, p, provider, write)
  }

  /** The handler is its three protocol steps in a row. */
  lemma HandledIsThreeSteps<P>(g: Guards<P>, s: State<P>, pid: nat, r: Request, p: P, limiter: Limiter,
      lookup: Fault, provider: Provider, write: Fault)
    requires s.sessions == map[]
    ensures Apply(g, Apply(g, Apply(g, s, Begin(pid, r, p, limiter)), Lookup(pid, lookup)),
                  Finish(pid, provider, write))
            == Handled(g, s, pid, r, p, limiter, lookup, provider, write)
  {
    if !Admitted(g, r, p, limiter) {
      RefusedAlone(g, s, pid, r, p, limiter, lookup, provider, write);
    } else {
      AdmittedAlone(g, s, pid, r, p, limiter);
      LookupAlone(g, s, pid, r, p, lookup, provider, write);
      FinishAlone(g, Asked(g, s, pid, r, p), pid, r, p, provider, write);
    }
  }

  class Handler<P> {
    const g: Guards<P>
    var now: nat
    var entries: map<string, Entry>
    var calls: seq<UpstreamCall<P>>
    var generations: seq<Generation<P>>
    var replies: seq<Reply<P>>
    var audits: seq<Audit>

    ghost function Value(): State<P>
      reads this
    {
      State(now, entries, map[], calls, generations, replies, audits)
    }

    constructor (g: Guards<P>)
      ensures this.g == g && Value() == Initial()
    {
      this.g := g;
      now, entries := 0, map[];
      calls, generations, replies, audits := [], [], [], [];
    }

    // `get_cached_response`
    method GetCachedResponse(r: Request, fault: Fault) returns (e: Option<Entry>)
      ensures e.Some? <==> fault == Works && g.key(r) in entries && now < entries[g.key(r)].dead
      ensures e.Some? ==> e.value == entries[g.key(r)]
    {
      var key := g.key(r);
      if fault == Works && key in entries && now < entries[key].dead {
        return Some(entries[key]);
      }
      return None;
    }

    // `cache_response`: empty text is never stored.
    method CacheResponse(r: Request, body: string, fault: Fault)
      modifies this`entries
      ensures entries == if body != "" && fault != NotSent
                         then old(entries)[g.key(r) := Entry(body, now + g.ttl, |generations|)] else old(entries)
    {
      if body == "" || fault == NotSent {
        return;
      }
      entries := entries[g.key(r) := Entry(body, now + g.ttl, |generations|)];
    }

    method Answer(pid: nat, r: Request, p: P, outcome: Outcome)
      modifies this`replies
      ensures replies == old(replies) + [Reply(pid, r, p, outcome, now)]
    {
      replies := replies + [Reply(pid, r, p, outcome, now)];
    }

    method RecordAuditLog(pid: nat, r: Request, action: Action, status: int, hit: bool, risk: int)
      modifies this`audits
      ensures audits == old(audits) + Record(pid, r, action, status, hit, risk)
    {
      audits := audits + [Audit(pid, r.user, r.role, r.model, action, status, hit, risk)];
    }

    // `chat`, up to the cache lookup; true when the request may go on.
    method Admit(pid: nat, r: Request, p: P, limiter: Limiter) returns (ok: bool)
      modifies this`replies, this`audits
      ensures ok <==> Admitted(g, r, p, limiter)
      ensures ok ==> Value() == old(Value())
      ensures !ok ==> Value() == AfterBegin(g, old(Value()), pid, r, p, limiter)
    {
      if !g.allowed(r, p) {
        RecordAuditLog(pid, r, BLOCK, 403, false, 75);
        Answer(pid, r, p, Refused(ModelDenied, 75));
        return false;
      }
      if limiter == Exceeded {
        Answer(pid, r, p, TooManyRequests);
        return false;
      }
      if limiter == Down {
        Answer(pid, r, p, LimiterDown);
        return false;
      }
      var dlp := g.dlp(r.prompt);
      var injection := g.injection(dlp.sanitized, p);
      var risk := if dlp.risk >= injection.risk then dlp.risk else injection.risk;
      if injection.action == BLOCK {
        RecordAuditLog(pid, r, BLOCK, 403, false, risk);
        Answer(pid, r, p, Refused(InjectionBlocked, risk));
        return false;
      }
      return true;
    }

    // `chat`, from the cache lookup to the provider call; true when the provider is called.
    method Consult(pid: nat, r: Request, p: P, fault: Fault) returns (asked: bool)
      modifies this`replies, this`audits, this`calls
      ensures asked <==> !Hit(g, old(Value()), r, p, fault) && g.supported(r)
      ensures asked ==> Value() == Asked(g, old(Value()), pid, r, p)
      ensures !asked ==> Value() == AfterLookup(g, old(Value()), pid, r, p, fault)
    {
      var dlp := g.dlp(r.prompt);
      var cached: Option<Entry> := None;
      if g.caching(p) {
        cached := GetCachedResponse(r, fault);
      }
      if cached.Some? {
        var action := if dlp.pii then dlp.action else ALLOW;
        RecordAuditLog(pid, r, action, 200, true, InputRisk(g, r, p));
        Answer(pid, r, p, Answered(cached.value.response, true, action, InputRisk(g, r, p), cached.value.made));
        return false;
      }
      if !g.supported(r) {
        Answer(pid, r, p, Unsupported);
        return false;
      }
      calls := calls + [UpstreamCall(pid, r, p, dlp.sanitized)];
      return true;
    }

    // `chat`, from the provider's answer on.
    method Conclude(pid: nat, r: Request, p: P, provider: Provider, fault: Fault)
      modifies this`replies, this`audits, this`entries, this`generations
      ensures Value() == AfterFinish(g, old(Value()), pid, r, p, provider, fault)
    {
      var risk := InputRisk(g, r, p);
      match provider {
        case Exception =>
          Answer(pid, r, p, Crashed);
        case HttpError(status) =>
          RecordAuditLog(pid, r, ERROR, status, false, risk);
          Answer(pid, r, p, Upstream(status, risk));
        case Text(raw) =>
          var f := g.filter(raw, p);
          if f.action == BLOCK {
            var worst := if risk >= f.risk then risk else f.risk;
            RecordAuditLog(pid, r, BLOCK, 403, false, worst);
            Answer(pid, r, p, Refused(ResponseBlocked, worst));
            return;
          }
          if g.caching(p) {
            CacheResponse(r, f.sanitized, fault);
          }
          var made := |generations|;
          generations := generations + [Generation(r, p, raw, now)];
          var action := if g.dlp(r.prompt).action == SANITIZE || f.action == SANITIZE then SANITIZE else ALLOW;
          RecordAuditLog(pid, r, action, 200, false, risk);
          Answer(pid, r, p, Answered(f.sanitized, false, action, risk, made));
      }
    }

    // `chat`
    method Chat(pid: nat, r: Request, p: P, limiter: Limiter, lookup: Fault, provider: Provider, write: Fault)
      modifies this
      ensures Value() == Handled(g, old(Value()), pid, r, p, limiter, lookup, provider, write)
    {
      var ok := Admit(pid, r, p, limiter);
      if ok {
        var asked := Consult(pid, r, p, lookup);
        if asked {
          Conclude(pid, r, p, provider, write);
        }
      }
    }
  }

  // ----- Invariants -----

  // The generation behind an entry or an answer: same key, let through by the filter, that text.
  predicate Yields<P>(g: Guards<P>, made: Generation<P>, key: string, body: string) {
    && Cleared(g, made.request, made.policy)
    && g.key(made.request) == key
    && g.filter(made.raw, made.policy).action != BLOCK
    && g.filter(made.raw, made.policy).sanitized == body
  }

  predicate EntryInv<P>(g: Guards<P>, made: seq<Generation<P>>, key: string, e: Entry) {
    && e.made < |made| && Yields(g, made[e.made], key, e.response) && e.dead == made[e.made].at + g.ttl
    && e.response != "" && g.caching(made[e.made].policy)
  }

  // The larger of what the prompt and its sanitized form score.
  predicate IsInputRisk<P>(g: Guards<P>, r: Request, p: P, risk: int) {
    var dlp, injection := g.dlp(r.prompt), g.injection(g.dlp(r.prompt).sanitized, p);
    risk >= dlp.risk && risk >= injection.risk && (risk == dlp.risk || risk == injection.risk)
  }

  // An answer is marked sanitized if its prompt was, or, when it is fresh, its text.
  predicate IsActionFor<P>(g: Guards<P>, made: Generation<P>, r: Reply<P>)
    requires r.outcome.Answered?
  {
    var dlp := g.dlp(r.request.prompt);
    if r.outcome.hit then r.outcome.action == (if dlp.pii then dlp.action else ALLOW)
    else
      && (r.outcome.action == SANITIZE || r.outcome.action == ALLOW)
      && (r.outcome.action == SANITIZE
          <==> dlp.action == SANITIZE || g.filter(made.raw, made.policy).action == SANITIZE)
  }

  // A text the filter blocks, with the largest of the three risks.
  ghost predicate IsBlockedText<P>(g: Guards<P>, r: Request, p: P, risk: int, raw: string) {
    var f := g.filter(raw, p);
    && f.action == BLOCK && risk >= f.risk
    && exists input :: IsInputRisk(g, r, p, input) && risk >= input && (risk == f.risk || risk == input)
  }

  ghost predicate AnswerInv<P>(g: Guards<P>, made: seq<Generation<P>>, r: Reply<P>)
    requires r.outcome.Answered?
  {
    && Cleared(g, r.request, r.policy)
    && r.outcome.made < |made| && Yields(g, made[r.outcome.made], g.key(r.request), r.outcome.body)
    && IsInputRisk(g, r.request, r.policy, r.outcome.risk) && IsActionFor(g, made[r.outcome.made], r)
    && (r.outcome.hit ==> g.caching(r.policy) && g.caching(made[r.outcome.made].policy) && r.outcome.body != "")
    && (if r.outcome.hit then made[r.outcome.made].at <= r.at < made[r.outcome.made].at + g.ttl
        else made[r.outcome.made] == Generation(r.request, r.policy, made[r.outcome.made].raw, r.at))
  }

  // What each outcome rests on.
  ghost predicate Justified<P>(g: Guards<P>, made: seq<Generation<P>>, r: Reply<P>) {
    match r.outcome
    case Answered(_, _, _, _, _) => AnswerInv(g, made, r)
    case Refused(ModelDenied, risk) => !g.allowed(r.request, r.policy) && risk == 75
    case Refused(InjectionBlocked, risk) =>
      && g.allowed(r.request, r.policy) && IsInputRisk(g, r.request, r.policy, risk)
      && g.injection(g.dlp(r.request.prompt).sanitized, r.policy).action == BLOCK
    case Refused(ResponseBlocked, risk) =>
      Cleared(g, r.request, r.policy) && exists raw :: IsBlockedText(g, r.request, r.policy, risk, raw)
    case Upstream(_, risk) => Cleared(g, r.request, r.policy) && IsInputRisk(g, r.request, r.policy, risk)
    case Unsupported => Cleared(g, r.request, r.policy) && !g.supported(r.request)
    case Crashed => Cleared(g, r.request, r.policy)
    case TooManyRequests => g.allowed(r.request, r.policy)
    case LimiterDown => g.allowed(r.request, r.policy)
  }

  // Everything sent upstream is a sanitized prompt that passed access control and the injection check.
  predicate CallInv<P>(g: Guards<P>, c: UpstreamCall<P>) {
    Cleared(g, c.request, c.policy) && g.supported(c.request) && c.prompt == SafePrompt(g, c.request)
  }

  predicate SessionInv<P>(g: Guards<P>, s: Session<P>, seen: set<Request>) {
    Cleared(g, s.request, s.policy) && s.request in seen
  }

  ghost predicate Inv<P>(g: Guards<P>, s: State<P>, seen: set<Request>) {
    && (forall pid | pid in s.sessions :: SessionInv(g, s.sessions[pid], seen))
    && (forall i | 0 <= i < |s.calls| :: CallInv(g, s.calls[i]))
    && (forall i | 0 <= i < |s.generations| :: s.generations[i].request in seen && s.generations[i].at <= s.now)
    && (forall key | key in s.entries :: EntryInv(g, s.generations, key, s.entries[key]))
    && (forall i | 0 <= i < |s.replies| :: s.replies[i].request in seen && Justified(g, s.generations, s.replies[i]))
    && s.audits == AuditTrail(s.replies)
  }

  lemma EndKeepsInv<P>(
    g: Guards<P>, s: State<P>, seen: set<Request>, pid: nat, r: Request, p: P, outcome: Outcome, audits: seq<Audit>)
    requires Inv(g, s, seen) && r in seen
    requires Justified(g, s.generations, Reply(pid, r, p, outcome, s.now))
    requires audits == AuditOf(Reply(pid, r, p, outcome, s.now))
    ensures Inv(g, End(s, pid, r, p, outcome, audits), seen)
  {
    var t := End(s, pid, r, p, outcome, audits);
    assert t.replies[..|s.replies|] == s.replies;
  }

  lemma BeginKeepsInv<P>(g: Guards<P>, s: State<P>, seen: set<Request>, pid: nat, r: Request, p: P, limiter: Limiter)
    requires Inv(g, s, seen) && r in seen && pid !in s.sessions
    ensures Inv(g, AfterBegin(g, s, pid, r, p, limiter), seen)
  {
    var risk := InputRisk(g, r, p);
    if !g.allowed(r, p) {
      EndKeepsInv(g, s, seen, pid, r, p, Refused(ModelDenied, 75), Record(pid, r, BLOCK, 403, false, 75));
    } else if limiter == Exceeded {
      EndKeepsInv(g, s, seen, pid, r, p, TooManyRequests, []);
    } else if limiter == Down {
      EndKeepsInv(g, s, seen, pid, r, p, LimiterDown, []);
    } else if InputVerdict(g, r, p).action == BLOCK {
      EndKeepsInv(g, s, seen, pid, r, p, Refused(InjectionBlocked, risk), Record(pid, r, BLOCK, 403, false, risk));
    } else {
      assert SessionInv(g, Session(r, p, false), seen);
    }
  }

  lemma LookupKeepsInv<P>(g: Guards<P>, s: State<P>, seen: set<Request>, pid: nat, r: Request, p: P, fault: Fault)
    requires Inv(g, s, seen) && r in seen && Cleared(g, r, p)
    ensures Inv(g, AfterLookup(g, s, pid, r, p, fault), seen)
  {
    if Hit(g, s, r, p, fault) {
      var outcome := AfterLookup(g, s, pid, r, p, fault).replies[|s.replies|].outcome;
      assert EntryInv(g, s.generations, g.key(r), s.entries[g.key(r)]);
      EndKeepsInv(g, s, seen, pid, r, p, outcome, Record(pid, r, outcome.action, 200, true, outcome.risk));
    } else if !g.supported(r) {
      EndKeepsInv(g, s, seen, pid, r, p, Unsupported, []);
    } else {
      assert SessionInv(g, Session(r, p, true), seen);
    }
  }

  // Later generations take nothing away.
  lemma MoreGenerations<P>(g: Guards<P>, s: State<P>, seen: set<Request>, made: Generation<P>)
    requires Inv(g, s, seen) && made.request in seen && made.at <= s.now
    ensures Inv(g, s.(generations := s.generations + [made]), seen)
  {
    var t := s.(generations := s.generations + [made]);
    forall i | 0 <= i < |s.generations|
      ensures t.generations[i] == s.generations[i]
    {
    }
    forall key | key in t.entries
      ensures EntryInv(g, t.generations, key, t.entries[key])
    {
      assert EntryInv(g, s.generations, key, s.entries[key]);
    }
    forall i | 0 <= i < |t.replies|
      ensures Justified(g, t.generations, t.replies[i])
    {
      assert Justified(g, s.generations, s.replies[i]);
    }
  }

  lemma PutKeepsInv<P>(g: Guards<P>, s: State<P>, seen: set<Request>, key: string, e: Entry)
    requires Inv(g, s, seen) && EntryInv(g, s.generations, key, e)
    ensures Inv(g, s.(entries := s.entries[key := e]), seen)
  {
  }

  lemma StoredKeepsInv<P>(g: Guards<P>, s: State<P>, seen: set<Request>, r: Request, p: P, raw: string, fault: Fault)
    requires Inv(g, s, seen) && r in seen && Cleared(g, r, p) && g.filter(raw, p).action != BLOCK
    ensures Inv(g, Stored(g, s, r, p, raw, fault), seen)
    ensures Yields(g, Generation(r, p, raw, s.now), g.key(r), g.filter(raw, p).sanitized)
  {
    var made := Generation(r, p, raw, s.now);
    var body := g.filter(raw, p).sanitized;
    var u := s.(generations := s.generations + [made]);
    MoreGenerations(g, s, seen, made);
    assert Yields(g, made, g.key(r), body);
    if g.caching(p) && body != "" && fault != NotSent {
      PutKeepsInv(g, u, seen, g.key(r), Entry(body, s.now + g.ttl, |s.generations|));
    }
  }

  lemma TextKeepsInv<P>(g: Guards<P>, s: State<P>, seen: set<Request>, pid: nat, r: Request, p: P, raw: string,
      fault: Fault)
    requires Inv(g, s, seen) && r in seen && Cleared(g, r, p)
    ensures Inv(g, AfterText(g, s, pid, r, p, raw, fault), seen)
  {
    var f := g.filter(raw, p);
    var risk := InputRisk(g, r, p);
    if f.action == BLOCK {
      var worst := if risk >= f.risk then risk else f.risk;
      assert IsInputRisk(g, r, p, risk);
      assert IsBlockedText(g, r, p, worst, raw);
      EndKeepsInv(g, s, seen, pid, r, p, Refused(ResponseBlocked, worst), Record(pid, r, BLOCK, 403, false, worst));
    } else {
      StoredKeepsInv(g, s, seen, r, p, raw, fault);
      var action := if g.dlp(r.prompt).action == SANITIZE || f.action == SANITIZE then SANITIZE else ALLOW;
      EndKeepsInv(g, Stored(g, s, r, p, raw, fault), seen, pid, r, p,
                  Answered(f.sanitized, false, action, risk, |s.generations|),
                  Record(pid, r, action, 200, false, risk));
    }
  }

  lemma FinishKeepsInv<P>(
    g: Guards<P>, s: State<P>, seen: set<Request>, pid: nat, r: Request, p: P, provider: Provider, fault: Fault)
    requires Inv(g, s, seen) && r in seen && Cleared(g, r, p)
    ensures Inv(g, AfterFinish(g, s, pid, r, p, provider, fault), seen)
  {
    var risk := InputRisk(g, r, p);
    match provider
    case Exception => EndKeepsInv(g, s, seen, pid, r, p, Crashed, []);
    case HttpError(status) =>
      EndKeepsInv(g, s, seen, pid, r, p, Upstream(status, risk), Record(pid, r, ERROR, status, false, risk));
    case Text(raw) => TextKeepsInv(g, s, seen, pid, r, p, raw, fault);
  }

  lemma StepKeepsInv<P>(g: Guards<P>, s: State<P>, seen: set<Request>, step: Step<P>)
    requires Inv(g, s, seen) && (step.Begin? ==> step.request in seen)
    ensures Inv(g, Apply(g, s, step), seen)
  {
    match step
    case Tick(dt) =>
    case Begin(pid, r, p, limiter) => if pid !in s.sessions { BeginKeepsInv(g, s, seen, pid, r, p, limiter); }
    case Lookup(pid, fault) =>
      if pid in s.sessions && !s.sessions[pid].asked {
        assert SessionInv(g, s.sessions[pid], seen);
        LookupKeepsInv(g, s, seen, pid, s.sessions[pid].request, s.sessions[pid].policy, fault);
      }
    case Finish(pid, provider, fault) =>
      if pid in s.sessions && s.sessions[pid].asked {
        assert SessionInv(g, s.sessions[pid], seen);
        FinishKeepsInv(g, s, seen, pid, s.sessions[pid].request, s.sessions[pid].policy, provider, fault);
      }
    case ClearCache =>
  }

  predicate Requests<P>(steps: seq<Step<P>>, seen: set<Request>) {
    forall i | 0 <= i < |steps| && steps[i].Begin? :: steps[i].request in seen
  }

  /** On every interleaving from an empty cache: every prompt sent upstream is a sanitized one that
      passed access control and the injection check; every 200 body is what the filter let through,
      for a request with the same key, and a cached one is younger than the lifetime; and the audit
      log holds exactly one record per outcome that must leave one, in order. */
  lemma {:induction false} RunKeepsInv<P>(g: Guards<P>, steps: seq<Step<P>>, seen: set<Request>)
    requires Requests(steps, seen)
    ensures Inv(g, Run(g, Initial(), steps), seen)
    decreases |steps|
  {
    if steps != [] {
      var before := steps[..|steps| - 1];
      assert forall i | 0 <= i < |before| :: before[i] == steps[i];
      RunKeepsInv(g, before, seen);
      StepKeepsInv(g, Run(g, Initial(), before), seen, steps[|steps| - 1]);
    }
  }

  // ----- What every request stands behind -----

  // The request began under this id and policy and was let past the limiter.
  predicate Began<P(==)>(steps: seq<Step<P>>, pid: nat, r: Request, p: P) {
    Begin(pid, r, p, Pass) in steps
  }

  // Outcomes that only a request the limiter let through can have.
  predicate PastLimiter(o: Outcome) {
    !o.TooManyRequests? && !o.LimiterDown? && !(o.Refused? && o.reason == ModelDenied)
  }

  // Everything sent upstream, generated or answered belongs to a request that began.
  ghost predicate Rooted<P>(steps: seq<Step<P>>, s: State<P>) {
    && (forall pid | pid in s.sessions :: Began(steps, pid, s.sessions[pid].request, s.sessions[pid].policy))
    && (forall c | c in s.calls :: Began(steps, c.pid, c.request, c.policy))
    && (forall m | m in s.generations :: exists pid :: Began(steps, pid, m.request, m.policy))
    && (forall r | r in s.replies && PastLimiter(r.outcome) :: Began(steps, r.pid, r.request, r.policy))
  }

  lemma StepStaysRooted<P>(g: Guards<P>, steps: seq<Step<P>>, s: State<P>, step: Step<P>)
    requires Rooted(steps, s) && step in steps
    ensures Rooted(steps, Apply(g, s, step))
  {
    match step
    case Tick(dt) =>
    case Begin(pid, r, p, limiter) =>
    case Lookup(pid, fault) =>
    case Finish(pid, provider, fault) =>
      if pid in s.sessions && s.sessions[pid].asked {
        FinishStaysRooted(g, steps, s, pid, s.sessions[pid].request, s.sessions[pid].policy, provider, fault);
      }
    case ClearCache =>
  }

  lemma FinishStaysRooted<P>(
    g: Guards<P>, steps: seq<Step<P>>, s: State<P>, pid: nat, r: Request, p: P, provider: Provider, fault: Fault)
    requires Rooted(steps, s) && Began(steps, pid, r, p)
    ensures Rooted(steps, AfterFinish(g, s, pid, r, p, provider, fault))
  {
    var t := AfterFinish(g, s, pid, r, p, provider, fault);
    assert forall q | q in t.sessions :: q in s.sessions && t.sessions[q] == s.sessions[q];
    assert forall m | m in t.generations :: m in s.generations || (m.request == r && m.policy == p);
    assert forall a | a in t.replies :: a in s.replies || (a.pid == pid && a.request == r && a.policy == p);
  }

  lemma RootedGrows<P>(steps: seq<Step<P>>, s: State<P>, step: Step<P>)
    requires Rooted(steps, s)
    ensures Rooted(steps + [step], s)
  {
    assert forall pid, r, p | Began(steps, pid, r, p) :: Began(steps + [step], pid, r, p);
  }

  /** On every interleaving each prompt sent upstream, each generation and each reply but those of access
      control and the limiter belongs to a request that began with this policy and that the limiter let
      through. */
  lemma {:induction false} RunIsRooted<P>(g: Guards<P>, steps: seq<Step<P>>)
    ensures Rooted(steps, Run(g, Initial(), steps))
    decreases |steps|
  {
    if steps != [] {
      var before, last := steps[..|steps| - 1], steps[|steps| - 1];
      RunIsRooted(g, before);
      RootedGrows(before, Run(g, Initial(), before), last);
      assert before + [last] == steps;
      StepStaysRooted(g, steps, Run(g, Initial(), before), last);
    }
  }

  // No two requests begin under one id.
  predicate UniqueIds<P>(steps: seq<Step<P>>) {
    forall i, j | 0 <= i < j < |steps| && steps[i].Begin? && steps[j].Begin? :: steps[i].pid != steps[j].pid
  }

  // Each id is behind one call at most, and behind none while its session has yet to ask.
  ghost predicate AsksOnce<P>(steps: seq<Step<P>>, s: State<P>) {
    && (forall i, j | 0 <= i < j < |s.calls| :: s.calls[i].pid != s.calls[j].pid)
    && (forall i | 0 <= i < |s.calls| ::
          s.calls[i].pid in s.sessions ==> HasAsked(s, s.calls[i].pid))
    && (forall i | 0 <= i < |s.calls| :: BeganAs(steps, s.calls[i].pid))
    && (forall pid | pid in s.sessions :: BeganAs(steps, pid))
  }

  predicate BeganAs<P>(steps: seq<Step<P>>, pid: nat) {
    exists i | 0 <= i < |steps| :: steps[i].Begin? && steps[i].pid == pid
  }

  lemma BeganGrows<P>(steps: seq<Step<P>>, step: Step<P>)
    ensures forall pid | BeganAs(steps, pid) :: BeganAs(steps + [step], pid)
    ensures step.Begin? ==> BeganAs(steps + [step], step.pid)
  {
    assert (steps + [step])[|steps|] == step;
    forall pid | BeganAs(steps, pid)
      ensures BeganAs(steps + [step], pid)
    {
      var i :| 0 <= i < |steps| && steps[i].Begin? && steps[i].pid == pid;
      assert (steps + [step])[i] == steps[i];
    }
  }

  predicate HasAsked<P>(s: State<P>, pid: nat) { pid in s.sessions && s.sessions[pid].asked }

  // The one session that asks in this step, if any.
  predicate Asks<P>(s: State<P>, step: Step<P>) {
    step.Lookup? && step.pid in s.sessions && !s.sessions[step.pid].asked
  }

  lemma StepAsks<P>(g: Guards<P>, s: State<P>, step: Step<P>)
    ensures var t := Apply(g, s, step);
            && (t.calls == s.calls
                || (Asks(s, step) && HasAsked(t, step.pid)
                    && exists c: UpstreamCall<P> :: c.pid == step.pid && t.calls == s.calls + [c]))
            && (forall pid | pid in t.sessions :: pid in s.sessions || (step.Begin? && step.pid == pid))
            && (forall pid | pid in t.sessions && HasAsked(s, pid) :: HasAsked(t, pid))
  {
    var t := Apply(g, s, step);
    if Asks(s, step) && t.calls != s.calls {
      assert t.calls == s.calls + [UpstreamCall(step.pid, s.sessions[step.pid].request, s.sessions[step.pid].policy,
                                                SafePrompt(g, s.sessions[step.pid].request))];
    }
  }

  lemma StepAsksOnce<P>(g: Guards<P>, steps: seq<Step<P>>, s: State<P>, step: Step<P>)
    requires AsksOnce(steps, s) && (step.Begin? ==> !BeganAs(steps, step.pid))
    ensures AsksOnce(steps + [step], Apply(g, s, step))
  {
    BeganGrows(steps, step);
    StepAsks(g, s, step);
  }

  /** If request ids are not reused, no request is sent upstream twice. */
  lemma {:induction false} RunAsksOnce<P>(g: Guards<P>, steps: seq<Step<P>>)
    requires UniqueIds(steps)
    ensures AsksOnce(steps, Run(g, Initial(), steps))
    decreases |steps|
  {
    if steps != [] {
      var before, last := steps[..|steps| - 1], steps[|steps| - 1];
      RunAsksOnce(g, before);
      assert before + [last] == steps;
      StepAsksOnce(g, before, Run(g, Initial(), before), last);
    }
  }

  /** A cached answer is not filtered again: one that a newer policy would block is still served
      until it expires. */
  lemma HitIsNotRescreened<P>(g: Guards<P>, r: Request, p: P, stricter: P, raw: string)
    requires Cleared(g, r, p) && Cleared(g, r, stricter) && g.supported(r) && g.caching(p) && g.caching(stricter)
    requires g.ttl > 0 && g.filter(raw, p).action != BLOCK && g.filter(raw, p).sanitized != ""
    requires g.filter(raw, stricter).action == BLOCK
    ensures var s1 := Apply(g, Apply(g, Initial(), Begin(0, r, p, Pass)), Lookup(0, Works));
            var s2 := Apply(g, Apply(g, s1, Finish(0, Text(raw), Works)), Begin(1, r, stricter, Pass));
            var s3 := Apply(g, s2, Lookup(1, Works));
            && |s3.replies| == 2 && s3.replies[1].policy == stricter
            && s3.replies[1].outcome.Answered? && s3.replies[1].outcome.body == g.filter(raw, p).sanitized
  {
    var s0 := Apply(g, Initial(), Begin(0, r, p, Pass));
    assert s0.sessions[0] == Session(r, p, false);
    var s1 := Apply(g, s0, Lookup(0, Works));
    assert s1.sessions[0] == Session(r, p, true);
    var t := Apply(g, s1, Finish(0, Text(raw), Works));
    assert g.key(r) in t.entries && 1 !in t.sessions;
    var s2 := Apply(g, t, Begin(1, r, stricter, Pass));
    assert s2.sessions[1] == Session(r, stricter, false);
  }

  // ----- How long an answer is reused -----

  // One request is answered with `raw` and stored; the same one comes again `dt` later.
  function AskedAgain<P>(g: Guards<P>, r: Request, p: P, raw: string, dt: nat): State<P> {
    var first := Apply(g, Apply(g, Initial(), Begin(0, r, p, Pass)), Lookup(0, Works));
    var stored := Apply(g, first, Finish(0, Text(raw), Works));
    Apply(g, Apply(g, Apply(g, stored, Tick(dt)), Begin(1, r, p, Pass)), Lookup(1, Works))
  }

  predicate Reused<P>(g: Guards<P>, r: Request, p: P, raw: string, dt: nat) {
    var s := AskedAgain(g, r, p, raw, dt);
    |s.replies| == 2 && s.replies[1].outcome.Answered? && s.replies[1].outcome.hit
  }

  lemma StoredOnce<P>(g: Guards<P>, r: Request, p: P, raw: string) returns (t: State<P>)
    requires Cleared(g, r, p) && g.supported(r) && g.caching(p)
    requires g.filter(raw, p).action != BLOCK && g.filter(raw, p).sanitized != ""
    ensures t == Apply(g, Apply(g, Apply(g, Initial(), Begin(0, r, p, Pass)), Lookup(0, Works)),
                       Finish(0, Text(raw), Works))
    ensures t.now == 0 && t.sessions == map[] && |t.replies| == 1
    ensures g.key(r) in t.entries && t.entries[g.key(r)].dead == g.ttl
  {
    var a := Apply(g, Initial(), Begin(0, r, p, Pass));
    assert a.sessions[0] == Session(r, p, false);
    var b := Apply(g, a, Lookup(0, Works));
    assert b.sessions[0] == Session(r, p, true) && b.sessions - {0} == map[];
    t := Apply(g, b, Finish(0, Text(raw), Works));
  }

  /** An answer is reused exactly as long as the one lifetime allows, whatever the policy says. */
  lemma ReusedExactly<P>(g: Guards<P>, r: Request, p: P, raw: string, dt: nat)
    requires Cleared(g, r, p) && g.supported(r) && g.caching(p)
    requires g.filter(raw, p).action != BLOCK && g.filter(raw, p).sanitized != ""
    ensures Reused(g, r, p, raw, dt) <==> dt < g.ttl
  {
    var t := StoredOnce(g, r, p, raw);
    var u := Apply(g, Apply(g, t, Tick(dt)), Begin(1, r, p, Pass));
    assert u.sessions[1] == Session(r, p, false) && |u.replies| == 1;
    assert Hit(g, u, r, p, Works) <==> dt < g.ttl;
  }
}
