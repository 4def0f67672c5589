/** The chat endpoint as deployed: `RequestFlow` with the policy store, the policies' own limits and the
    gateway's checks. Limiter times are milliseconds. */
module Endpoint {
  import opened Common
  import opened PolicyValidator
  import opened ChatPipeline
  import opened Gateway
  import CacheAside
  import PolicyCache
  import RequestFlow

  const SECOND: nat := 1000

  function Positive(n: int): nat { if n > 0 then n else 0 }

  // `PolicyEngine.get_rate_limit`
  function Limit(p: Policy): nat { Positive(p.rateLimit.requests) }

  function Window(p: Policy): nat { Positive(p.rateLimit.windowSeconds) * SECOND }

  function Whole(c: Checks): RequestFlow.Parts<Document, Policy> {
    RequestFlow.Parts(PolicyCache.RULES, Pipe(c), Limit, Window)
  }

  type Rows = CacheAside.Table<Document>
  type Flow = seq<RequestFlow.Step<Document, Policy>>

  function After(c: Checks, rows: Rows, steps: Flow): RequestFlow.State<Document, Policy> {
    RequestFlow.Run(Whole(c), rows, steps)
  }

  function Chats(c: Checks, rows: Rows, steps: Flow): State<Policy> {
    Run(Pipe(c), Initial(), After(c, rows, steps).chat)
  }

  predicate Sound(p: Policy) { Guardrails(p) && SchemaValid(p) }

  // ----- Every request runs under a policy that meets all guardrails -----

  lemma HandedIsSound(c: Checks, rows: Rows, s: RequestFlow.State<Document, Policy>, p: Policy)
    requires RequestFlow.Handed(Whole(c), rows, s, p)
    ensures Sound(p)
  {
    PolicyCache.AnswersMeetGuardrails(rows, s.config);
  }

  lemma BegunIsSound(c: Checks, rows: Rows, steps: Flow, pid: nat, r: Request, p: Policy)
    requires Began(After(c, rows, steps).chat, pid, r, p)
    ensures Sound(p)
  {
    RequestFlow.RunHoldsHanded(Whole(c), rows, steps);
    HandedIsSound(c, rows, After(c, rows, steps), p);
  }

  /** Whatever fails in Redis or the database and however policies change: every prompt sent upstream is
      the sanitized form of one whose role may use the model, and the injection check let it through,
      under a policy that meets every guardrail, so with a threshold between 60 and 100. */
  lemma PromptsMeetGuardrails(c: Checks, rows: Rows, steps: Flow, seen: set<Request>, k: nat)
    requires Requests(After(c, rows, steps).chat, seen) && k < |Chats(c, rows, steps).calls|
    ensures var call := Chats(c, rows, steps).calls[k];
            && Sound(call.policy) && 60 <= call.policy.input.blockThreshold <= 100
            && call.prompt == c.dlp(call.request.prompt).sanitized
            && !Denied(call.policy.rbac, c.env, call.request.role, call.request.model)
            && c.injection(call.prompt, call.policy.input.blockThreshold).action != BLOCK
  {
    var chat := After(c, rows, steps).chat;
    ProviderSeesOnlyCleared(c, chat, seen, k);
    RunIsRooted(Pipe(c), chat);
    var call := Chats(c, rows, steps).calls[k];
    assert call in Chats(c, rows, steps).calls;
    BegunIsSound(c, rows, steps, call.pid, call.request, call.policy);
  }

  /** And every 200 answer was let through by the filter under such a policy, for a cleared request with
      the same provider, role, model and normal prompt. */
  lemma AnswersMeetGuardrails(c: Checks, rows: Rows, steps: Flow, seen: set<Request>, k: nat)
    returns (made: Generation<Policy>)
    requires Requests(After(c, rows, steps).chat, seen) && KeysAreFaithful(c, seen)
    requires k < |Chats(c, rows, steps).replies| && Chats(c, rows, steps).replies[k].outcome.Answered?
    ensures made in Chats(c, rows, steps).generations && Sound(made.policy)
    ensures var r := Chats(c, rows, steps).replies[k];
            && Sound(r.policy) && SameQuestion(c, made.request, r.request)
            && c.filter(made.raw, made.policy.response.blockThreshold).action != BLOCK
            && r.outcome.body == c.filter(made.raw, made.policy.response.blockThreshold).sanitized
            && 60 <= made.policy.response.blockThreshold <= 100
  {
    var chat := After(c, rows, steps).chat;
    made := AnswersAreIsolated(c, chat, seen, k);
    RunIsRooted(Pipe(c), chat);
    var pid :| Began(chat, pid, made.request, made.policy);
    BegunIsSound(c, rows, steps, pid, made.request, made.policy);
    var r := Chats(c, rows, steps).replies[k];
    assert r in Chats(c, rows, steps).replies;
    BegunIsSound(c, rows, steps, r.pid, r.request, r.policy);
  }

  // ----- What no policy can change -----

  // A check of the code's form: it never blocks a blank prompt, and others by thresholds up to their score.
  ghost predicate InjectsByThreshold(c: Checks, judge: string -> Judgement) {
    forall prompt, threshold ::
      c.injection(prompt, threshold).action == BLOCK <==> judge(prompt).Risky? && judge(prompt).risk >= threshold
  }

  /** Whichever policies are stored and activated during a run: no prompt that scores 100 or more is ever
      sent upstream, and no request below 60 is ever refused for injection. */
  lemma InjectionWhateverThePolicy(
    c: Checks, rows: Rows, steps: Flow, seen: set<Request>, judge: string -> Judgement, k: nat)
    requires Requests(After(c, rows, steps).chat, seen) && InjectsByThreshold(c, judge)
    ensures k < |Chats(c, rows, steps).calls| ==>
              var verdict := judge(Chats(c, rows, steps).calls[k].prompt); verdict.Risky? ==> verdict.risk < 100
    ensures k < |Chats(c, rows, steps).replies| && Chats(c, rows, steps).replies[k].outcome.Refused?
            && Chats(c, rows, steps).replies[k].outcome.reason == InjectionBlocked ==>
              var verdict := judge(c.dlp(Chats(c, rows, steps).replies[k].request.prompt).sanitized);
              verdict.Risky? && verdict.risk >= 60
  {
    var chat := After(c, rows, steps).chat;
    var s := Chats(c, rows, steps);
    if k < |s.calls| { PromptsMeetGuardrails(c, rows, steps, seen, k); }
    if k < |s.replies| && s.replies[k].outcome.Refused? && s.replies[k].outcome.reason == InjectionBlocked {
      var r := s.replies[k];
      RunKeepsInv(Pipe(c), chat, seen);
      assert Justified(Pipe(c), s.generations, r);
      RunIsRooted(Pipe(c), chat);
      assert r in s.replies;
      BegunIsSound(c, rows, steps, r.pid, r.request, r.policy);
    }
  }

  /** And no text the filter always blocks, or scores 100 or more, is ever answered, fresh or cached. */
  lemma AnswersWhateverThePolicy(
    c: Checks, rows: Rows, steps: Flow, seen: set<Request>, judge: string -> Judgement, k: nat)
    returns (made: Generation<Policy>)
    requires Requests(After(c, rows, steps).chat, seen) && KeysAreFaithful(c, seen) && FiltersByThreshold(c, judge)
    requires k < |Chats(c, rows, steps).replies| && Chats(c, rows, steps).replies[k].outcome.Answered?
    ensures made in Chats(c, rows, steps).generations
    ensures Chats(c, rows, steps).replies[k].outcome.body
            == c.filter(made.raw, made.policy.response.blockThreshold).sanitized
    ensures judge(made.raw).Harmless? || (judge(made.raw).Risky? && judge(made.raw).risk < 100)
  {
    made := AnswersMeetGuardrails(c, rows, steps, seen, k);
  }

  // ----- How much one key gets -----

  // The largest limit and the shortest window of the policies handed out.
  predicate Allows(c: Checks, rows: Rows, steps: Flow, limit: nat, window: nat) {
    forall a | a in RequestFlow.Policies(Whole(c), rows, After(c, rows, steps)).answers ::
      Limit(a.policy) <= limit && window <= Window(a.policy)
  }

  /** While policies change under it, one API key gets at most k * limit + limit - 1 requests past the
      limiter in any interval of k windows, for the largest limit and the shortest window handed out; only
      those reach the provider, each at most once. */
  lemma KeyIsBounded(c: Checks, rows: Rows, steps: Flow, limit: nat, window: nat, t: nat, k: nat)
    requires window > 0 && Allows(c, rows, steps, limit, window)
    ensures var s := After(c, rows, steps);
            && |RequestFlow.Within(s.passed, t, t + k * window)| <= k * limit + (if limit == 0 then 0 else limit - 1)
            && RequestFlow.OnlyPassedGoOn(s, Chats(c, rows, steps))
  {
    RequestFlow.KeyIsBounded(Whole(c), rows, steps, limit, window, t, k);
  }

  /** Every policy's window is a second at least, so the bound holds for one-second windows whatever
      policies are handed out. */
  lemma KeyIsBoundedPerSecond(c: Checks, rows: Rows, steps: Flow, limit: nat, t: nat, k: nat)
    requires forall a | a in RequestFlow.Policies(Whole(c), rows, After(c, rows, steps)).answers ::
               a.policy.rateLimit.requests <= limit
    ensures |RequestFlow.Within(After(c, rows, steps).passed, t, t + k * SECOND)|
            <= k * limit + (if limit == 0 then 0 else limit - 1)
  {
    var s := After(c, rows, steps);
    forall a | a in RequestFlow.Policies(Whole(c), rows, s).answers
      ensures Limit(a.policy) <= limit && SECOND <= Window(a.policy)
    {
      HandedIsSound(c, rows, s, a.policy);
    }
    KeyIsBounded(c, rows, steps, limit, SECOND, t, k);
  }
}
