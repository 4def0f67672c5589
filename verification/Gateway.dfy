/** The gateway: `ChatPipeline` with the code's access control, provider choice, thresholds and cache
    keys. DLP, injection detection, the output filter and the digest stay arbitrary. */
module Gateway {
  import opened Common
  import opened AsciiText
  import opened PolicyValidator
  import opened SemanticCache
  import opened ChatPipeline

  // Settings read from the environment; `models` are the allow-lists of roles a policy omits.
  datatype Env = Env(cacheOn: bool, ttl: nat, provider: string, models: string -> set<string>)

  datatype Checks = Checks(
    dlp: string -> Dlp, injection: (string, int) -> Injection, filter: (string, int) -> Filtered,
    digest: string -> string, env: Env)

  // `policy.rbac.get(role)`
  function RoleEntry(rbac: seq<(string, RolePolicy)>, role: string): Option<RolePolicy> {
    if rbac == [] then None
    else if rbac[0].0 == role then Some(rbac[0].1)
    else RoleEntry(rbac[1..], role)
  }

  // `is_model_allowed`
  predicate IsModelAllowed(role: string, model: string, policy: Policy, env: Env) {
    && role != "" && model != ""
    && match RoleEntry(policy.rbac, Lower(role))
       case Some(entry) => "*" in entry.allowedModels || Trim(model, IsSpace) in entry.allowedModels
       case None => "*" in env.models(Lower(role)) || Trim(model, IsSpace) in env.models(Lower(role))
  }

  predicate OccursAt(s: string, t: string, i: nat) {
    i + |t| <= |s| && s[i..i + |t|] == t
  }

  predicate Contains(s: string, t: string) {
    exists i: nat | i <= |s| :: OccursAt(s, t, i)
  }

  // The provider a lower-cased, stripped model name selects.
  function ProviderFor(m: string, fallback: string): string {
    if "mock" <= m then "mock"
    else if "claude" <= m || Contains(m, "anthropic") then "anthropic"
    else if "gpt-" <= m || "o1" <= m || "o3" <= m || Contains(m, "openai") then "openai"
    else fallback
  }

  // `resolve_provider_name`
  function ResolveProvider(model: string, env: Env): string {
    var fallback := Clean(env.provider, "");
    if model == "" then fallback else ProviderFor(Clean(model, "default"), fallback)
  }

  predicate Supported(provider: string) { provider in {"mock", "openai", "anthropic"} }

  function KeyOf(c: Checks, r: Request): string {
    GenerateCacheKey(c.dlp(r.prompt).sanitized, r.model, r.role, ResolveProvider(r.model, c.env), c.digest)
  }

  function Pipe(c: Checks): Guards<Policy> {
    Guards(
      (r: Request, p: Policy) => IsModelAllowed(r.role, r.model, p, c.env),
      c.dlp,
      (prompt: string, p: Policy) => c.injection(prompt, p.input.blockThreshold),
      (raw: string, p: Policy) => c.filter(raw, p.response.blockThreshold),
      (r: Request) => Supported(ResolveProvider(r.model, c.env)),
      (p: Policy) => p.cache.enabled && c.env.cacheOn,
      (r: Request) => KeyOf(c, r),
      c.env.ttl)
  }

  // ----- Who may use a model -----

  // A list of models that names the model, once stripped, or all of them.
  predicate Lists(models: seq<string>, model: string) {
    exists i | 0 <= i < |models| :: models[i] == "*" || models[i] == Trim(model, IsSpace)
  }

  // Entry i is the first that the lower-cased role names.
  predicate FirstNamed(rbac: seq<(string, RolePolicy)>, role: string, i: nat) {
    i < |rbac| && rbac[i].0 == Lower(role) && forall j | 0 <= j < i :: rbac[j].0 != Lower(role)
  }

  // No entry of the role lists the model, and without an entry neither does the environment.
  predicate NotListed(rbac: seq<(string, RolePolicy)>, env: Env, role: string, model: string) {
    || (exists i | 0 <= i < |rbac| :: FirstNamed(rbac, role, i) && !Lists(rbac[i].1.allowedModels, model))
    || ((forall i | 0 <= i < |rbac| :: rbac[i].0 != Lower(role))
        && "*" !in env.models(Lower(role)) && Trim(model, IsSpace) !in env.models(Lower(role)))
  }

  // Refused before anything else is looked at.
  predicate Denied(rbac: seq<(string, RolePolicy)>, env: Env, role: string, model: string) {
    role == "" || model == "" || NotListed(rbac, env, role, model)
  }

  lemma {:induction false} RoleEntryIsFirst(rbac: seq<(string, RolePolicy)>, role: string)
    ensures if RoleEntry(rbac, Lower(role)).None? then forall i | 0 <= i < |rbac| :: rbac[i].0 != Lower(role)
            else exists i | 0 <= i < |rbac| ::
                   FirstNamed(rbac, role, i) && RoleEntry(rbac, Lower(role)).value == rbac[i].1
  {
    if rbac != [] {
      var rest := rbac[1..];
      if rbac[0].0 == Lower(role) {
        assert FirstNamed(rbac, role, 0);
      } else {
        RoleEntryIsFirst(rest, role);
        if RoleEntry(rest, Lower(role)).Some? {
          var i :| 0 <= i < |rest| && FirstNamed(rest, role, i) && RoleEntry(rest, Lower(role)).value == rest[i].1;
          assert forall j | 0 < j < i + 1 :: rbac[j] == rest[j - 1];
          assert FirstNamed(rbac, role, i + 1);
        } else {
          assert forall j | 0 < j < |rbac| :: rbac[j] == rest[j - 1];
        }
      }
    }
  }

  lemma DeniedExactly(role: string, model: string, policy: Policy, env: Env)
    ensures IsModelAllowed(role, model, policy, env) <==> !Denied(policy.rbac, env, role, model)
  {
    RoleEntryIsFirst(policy.rbac, role);
    match RoleEntry(policy.rbac, Lower(role))
    case Some(entry) =>
      var i :| 0 <= i < |policy.rbac| && FirstNamed(policy.rbac, role, i) && entry == policy.rbac[i].1;
      assert forall j | 0 <= j < |policy.rbac| && FirstNamed(policy.rbac, role, j) :: j == i;
    case None =>
  }

  /** A request that begins is refused for its model, with the 403 record, if and only if its role or model
      is empty, or the first entry of the lower-cased role lists neither the stripped model nor "*", or
      there is no such entry and the environment lists neither for the role. */
  lemma RefusedForModelExactly(
    c: Checks, s: State<Policy>, pid: nat, r: Request, p: Policy, limiter: Limiter)
    requires pid !in s.sessions
    ensures var t := Apply(Pipe(c), s, Begin(pid, r, p, limiter));
            (&& t.replies == s.replies + [Reply(pid, r, p, Refused(ModelDenied, 75), s.now)]
             && t.audits == s.audits + [Audit(pid, r.user, r.role, r.model, BLOCK, 403, false, 75)])
            <==> Denied(p.rbac, c.env, r.role, r.model)
  {
    DeniedExactly(r.role, r.model, p, c.env);
    var t := Apply(Pipe(c), s, Begin(pid, r, p, limiter));
    assert t.replies != s.replies ==> t.replies[|s.replies|] == t.replies[|t.replies| - 1];
  }

  /** Under the built-in policy a developer may use the mock model and nothing else, whatever the
      environment lists. */
  lemma DeveloperUnderDefault(env: Env, model: string)
    requires model != ""
    ensures Denied(DEFAULT_POLICY.rbac, env, "developer", model) <==> Trim(model, IsSpace) != "mock-model"
  {
    DefaultEntries(env, "developer", model, 2);
    assert DEFAULT_POLICY.rbac[2].1.allowedModels == ["mock-model"];
  }

  /** An analyst may also use two small models of the two providers, an admin six. */
  lemma OthersUnderDefault(env: Env, model: string)
    requires model != ""
    ensures Denied(DEFAULT_POLICY.rbac, env, "analyst", model)
            <==> Trim(model, IsSpace) !in {"mock-model", "gpt-4o-mini", "claude-3-5-sonnet-latest"}
    ensures Denied(DEFAULT_POLICY.rbac, env, "admin", model)
            <==> Trim(model, IsSpace) !in {"mock-model", "gpt-4o-mini", "gpt-4", "gpt-4o",
                                           "claude-3-5-sonnet-latest", "claude-3-haiku-20240307"}
  {
    DefaultEntries(env, "analyst", model, 1);
    DefaultEntries(env, "admin", model, 0);
    var analyst := DEFAULT_POLICY.rbac[1].1.allowedModels;
    assert forall m :: m in analyst <==> m in {"mock-model", "gpt-4o-mini", "claude-3-5-sonnet-latest"};
  }

  // The entry of each role, and no "*" in it.
  lemma DefaultEntries(env: Env, role: string, model: string, i: nat)
    requires i < 3 && role == ["admin", "analyst", "developer"][i] && model != ""
    ensures Denied(DEFAULT_POLICY.rbac, env, role, model)
            <==> Trim(model, IsSpace) !in DEFAULT_POLICY.rbac[i].1.allowedModels
  {
    LowerOfRoles();
    var rbac := DEFAULT_POLICY.rbac;
    assert |rbac| == 3 && rbac[0].0 == "admin" && rbac[1].0 == "analyst" && rbac[2].0 == "developer";
    assert FirstNamed(rbac, role, i);
    assert forall j | 0 <= j < |rbac| && FirstNamed(rbac, role, j) :: j == i;
    assert "*" !in rbac[i].1.allowedModels;
  }

  // ----- Which provider answers, and when the cache is asked -----

  predicate StartsWith(s: string, start: string) { |start| <= |s| && s[..|start|] == start }

  /** A model's provider goes by its lower-cased, stripped name: mock, then anthropic for "claude..." and
      whatever contains "anthropic", then openai for "gpt-...", "o1...", "o3..." and whatever contains
      "openai", else what the environment says. */
  lemma ProviderExactly(model: string, env: Env)
    requires model != ""
    ensures var m := Trim(Lower(model), IsSpace);
            ResolveProvider(model, env) ==
            if StartsWith(m, "mock") then "mock"
            else if StartsWith(m, "claude") || (exists i: nat :: OccursAt(m, "anthropic", i)) then "anthropic"
            else if StartsWith(m, "gpt-") || StartsWith(m, "o1") || StartsWith(m, "o3")
                    || (exists i: nat :: OccursAt(m, "openai", i)) then "openai"
            else ResolveProvider("", env)
    ensures ResolveProvider("", env) == Trim(Lower(env.provider), IsSpace)
  {
    assert Lower("") == "";
    var m := Trim(Lower(model), IsSpace);
    assert forall t | Contains(m, t) :: exists i: nat :: OccursAt(m, t, i);
    assert forall t, i: nat | OccursAt(m, t, i) :: Contains(m, t);
  }

  /** The cache is consulted and filled only if both the policy and the environment switch it on, and only
      three providers are ever called. */
  lemma SwitchesExactly(c: Checks, r: Request, p: Policy)
    ensures Pipe(c).caching(p) <==> p.cache.enabled && c.env.cacheOn
    ensures Pipe(c).supported(r) <==>
            var provider := ResolveProvider(r.model, c.env);
            provider == "mock" || provider == "openai" || provider == "anthropic"
  {
  }

  // ----- Who may share an answer -----

  function NormalPrompt(c: Checks, r: Request): string { NormalizePrompt(c.dlp(r.prompt).sanitized) }

  predicate SameQuestion(c: Checks, a: Request, b: Request) {
    && ResolveProvider(a.model, c.env) == ResolveProvider(b.model, c.env)
    && Clean(a.role, "unknown") == Clean(b.role, "unknown")
    && Clean(a.model, "default") == Clean(b.model, "default")
    && NormalPrompt(c, a) == NormalPrompt(c, b)
  }

  // Among the requests seen no provider extends another by a colon, no role joins another, and no two
  // prompts collide; digests have one length.
  ghost predicate KeysAreFaithful(c: Checks, seen: set<Request>) {
    && (forall a, b | a in seen && b in seen :: Apart(PartsOf(c, a), PartsOf(c, b)))
    && (forall x, y :: |c.digest(x)| == |c.digest(y)|)
    && (forall a, b | a in seen && b in seen :: Collide(c, a, b) ==> NormalPrompt(c, a) == NormalPrompt(c, b))
  }

  predicate Apart(p: Parts, q: Parts) {
    !Extends(p.provider, q.provider) && !Joins(p.role, q.role)
  }

  predicate Collide(c: Checks, a: Request, b: Request) {
    c.digest(NormalPrompt(c, a)) == c.digest(NormalPrompt(c, b))
  }

  lemma SameModelSameProvider(a: string, b: string, env: Env)
    requires a != "" && b != "" && Clean(a, "default") == Clean(b, "default")
    ensures ResolveProvider(a, env) == ResolveProvider(b, env)
  {
  }

  // The parts of a request's key.
  datatype Parts = Parts(provider: string, role: string, model: string, digest: string)

  function PartsOf(c: Checks, r: Request): Parts {
    Parts(Clean(ResolveProvider(r.model, c.env), "default"), Clean(r.role, "unknown"), Clean(r.model, "default"),
          c.digest(NormalPrompt(c, r)))
  }

  lemma KeyOfParts(c: Checks, r: Request)
    ensures var p := PartsOf(c, r); KeyOf(c, r) == Key(p.provider, p.role, p.model, p.digest)
  {
  }

  lemma SamePartsExactly(c: Checks, a: Request, b: Request)
    requires a.model != "" && b.model != "" && (Collide(c, a, b) ==> NormalPrompt(c, a) == NormalPrompt(c, b))
    ensures PartsOf(c, a) == PartsOf(c, b) <==> SameQuestion(c, a, b)
  {
    if PartsOf(c, a).model == PartsOf(c, b).model {
      SameModelSameProvider(a.model, b.model, c.env);
    }
  }

  /** Two requests share a cache key exactly when they agree on provider, role, model and prompt up
      to normalisation. */
  lemma SameKeyExactly(c: Checks, seen: set<Request>, a: Request, b: Request)
    requires KeysAreFaithful(c, seen) && a in seen && b in seen && a.model != "" && b.model != ""
    ensures KeyOf(c, a) == KeyOf(c, b) <==> SameQuestion(c, a, b)
  {
    KeyOfParts(c, a);
    KeyOfParts(c, b);
    CleanIsStripped(a.model, "default");
    CleanIsStripped(b.model, "default");
    SamePartsExactly(c, a, b);
    assert Apart(PartsOf(c, a), PartsOf(c, b)) && Apart(PartsOf(c, b), PartsOf(c, a));
    var p, q := PartsOf(c, a), PartsOf(c, b);
    KeysAgreeExactly(p.provider, p.role, p.model, p.digest, q.provider, q.role, q.model, q.digest);
  }

  /** On every interleaving from an empty cache, each 200 answer is the filter's non-blocked output for
      a cleared request with the same provider, role, model and prompt up to normalisation: no role is
      ever served what was generated for another. Cached answers are younger than the lifetime. */
  lemma AnswersAreIsolated(c: Checks, steps: seq<Step<Policy>>, seen: set<Request>, k: nat)
    returns (made: Generation<Policy>)
    requires Requests(steps, seen) && KeysAreFaithful(c, seen)
    requires k < |Run(Pipe(c), Initial(), steps).replies| && Run(Pipe(c), Initial(), steps).replies[k].outcome.Answered?
    ensures made in Run(Pipe(c), Initial(), steps).generations
    ensures var r := Run(Pipe(c), Initial(), steps).replies[k];
            && SameQuestion(c, made.request, r.request)
            && Cleared(Pipe(c), r.request, r.policy) && Cleared(Pipe(c), made.request, made.policy)
            && c.filter(made.raw, made.policy.response.blockThreshold).action != BLOCK
            && r.outcome.body == c.filter(made.raw, made.policy.response.blockThreshold).sanitized
            && (r.outcome.hit ==> made.at <= r.at < made.at + c.env.ttl)
  {
    var g := Pipe(c);
    RunKeepsInv(g, steps, seen);
    var s := Run(g, Initial(), steps);
    var r := s.replies[k];
    assert Justified(g, s.generations, r);
    made := s.generations[r.outcome.made];
    SameKeyExactly(c, seen, made.request, r.request);
  }

  /** Every prompt sent upstream is the sanitized form of a request whose role is not denied the model by
      the policy it was checked against and whose sanitized prompt the injection check let through. */
  lemma ProviderSeesOnlyCleared(c: Checks, steps: seq<Step<Policy>>, seen: set<Request>, k: nat)
    requires Requests(steps, seen) && k < |Run(Pipe(c), Initial(), steps).calls|
    ensures var call := Run(Pipe(c), Initial(), steps).calls[k];
            && call.prompt == c.dlp(call.request.prompt).sanitized
            && !Denied(call.policy.rbac, c.env, call.request.role, call.request.model)
            && c.injection(call.prompt, call.policy.input.blockThreshold).action != BLOCK
  {
    RunKeepsInv(Pipe(c), steps, seen);
    var call := Run(Pipe(c), Initial(), steps).calls[k];
    assert CallInv(Pipe(c), call);
    DeniedExactly(call.request.role, call.request.model, call.policy, c.env);
  }

  // ----- What a newer policy changes for answers already cached -----

  // A filter of the code's form: a text is never blocked, always, or by thresholds up to its risk.
  datatype Judgement = Harmless | Forbidden | Risky(risk: int)

  ghost predicate FiltersByThreshold(c: Checks, judge: string -> Judgement) {
    forall raw, threshold ::
      c.filter(raw, threshold).action == BLOCK
      <==> judge(raw).Forbidden? || (judge(raw).Risky? && judge(raw).risk >= threshold)
  }

  predicate Blocks(c: Checks, p: Policy, raw: string) {
    c.filter(raw, p.response.blockThreshold).action == BLOCK
  }

  /** A hit hands out a text its own policy would block if and only if that policy's threshold is at or
      below the text's risk and the threshold it was generated under is above; so never while
      thresholds are not lowered. */
  lemma HitIsBlockedExactly(c: Checks, judge: string -> Judgement, steps: seq<Step<Policy>>, seen: set<Request>, k: nat)
    returns (made: Generation<Policy>)
    requires Requests(steps, seen) && FiltersByThreshold(c, judge)
    requires k < |Run(Pipe(c), Initial(), steps).replies|
    requires var o := Run(Pipe(c), Initial(), steps).replies[k].outcome; o.Answered? && o.hit
    ensures made in Run(Pipe(c), Initial(), steps).generations
    ensures var r := Run(Pipe(c), Initial(), steps).replies[k];
            && r.outcome.body == c.filter(made.raw, made.policy.response.blockThreshold).sanitized
            && (Blocks(c, r.policy, made.raw) <==>
                  && judge(made.raw).Risky?
                  && r.policy.response.blockThreshold <= judge(made.raw).risk < made.policy.response.blockThreshold)
            && (made.policy.response.blockThreshold <= r.policy.response.blockThreshold
                ==> !Blocks(c, r.policy, made.raw))
  {
    var g := Pipe(c);
    RunKeepsInv(g, steps, seen);
    var s := Run(g, Initial(), steps);
    assert Justified(g, s.generations, s.replies[k]);
    made := s.generations[s.replies[k].outcome.made];
    assert !Blocks(c, made.policy, made.raw);
  }

  /** The lifetime in a policy is the one its answers get if and only if it equals the environment's. */
  lemma LifetimesAgreeExactly(c: Checks, r: Request, p: Policy, raw: string)
    requires Cleared(Pipe(c), r, p) && Supported(ResolveProvider(r.model, c.env)) && p.cache.enabled && c.env.cacheOn
    requires !Blocks(c, p, raw) && c.filter(raw, p.response.blockThreshold).sanitized != "" && p.cache.ttlSeconds >= 1
    ensures (forall dt: nat :: Reused(Pipe(c), r, p, raw, dt) <==> dt < p.cache.ttlSeconds)
            <==> c.env.ttl == p.cache.ttlSeconds
  {
    var g := Pipe(c);
    forall dt: nat
      ensures Reused(g, r, p, raw, dt) <==> dt < c.env.ttl
    {
      ReusedExactly(g, r, p, raw, dt);
    }
    var shorter: nat := if c.env.ttl < p.cache.ttlSeconds then c.env.ttl else p.cache.ttlSeconds;
    assert Reused(g, r, p, raw, shorter) <==> shorter < c.env.ttl;
  }
}
