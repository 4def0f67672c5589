/** The security policy document and the guardrails every usable policy must satisfy. */
module PolicyValidator {
  import opened Common
  import opened AsciiText
  import opened CronText

  datatype RateLimitPolicy = RateLimitPolicy(requests: int, windowSeconds: int)
  datatype InputPolicy = InputPolicy(dlpEnabled: bool, injectionEnabled: bool, blockThreshold: int)
  datatype ResponsePolicy = ResponsePolicy(enabled: bool, blockThreshold: int, sanitizeThreshold: int)
  datatype CachePolicy = CachePolicy(enabled: bool, ttlSeconds: int)
  datatype RolePolicy = RolePolicy(allowedModels: seq<string>, dashboardAccess: bool)
  datatype ProviderConfig = ProviderConfig(enabled: bool, allowedModels: seq<string>, timeoutSeconds: int)

  // `rbac` and `providers` are dictionaries, listed in insertion order.
  datatype Policy = Policy(
    version: string, rateLimit: RateLimitPolicy, input: InputPolicy, response: ResponsePolicy, cache: CachePolicy,
    rbac: seq<(string, RolePolicy)>, providers: seq<(string, ProviderConfig)>)

  // Stored JSON: text that is no policy object at all, or one still to be checked.
  datatype Document = Malformed | Fields(policy: Policy)

  // `^\d+\.\d+\.\d+$`
  predicate IsSemanticVersion(v: string) {
    var parts := Split(v, '.');
    |parts| == 3 && IsNumber(parts[0]) && IsNumber(parts[1]) && IsNumber(parts[2])
  }

  // The field constraints the schema enforces when a document is parsed.
  predicate SchemaValid(p: Policy) {
    && IsSemanticVersion(p.version)
    && p.rateLimit.requests >= 1 && p.rateLimit.windowSeconds >= 1
    && 60 <= p.input.blockThreshold <= 100
    && 60 <= p.response.blockThreshold <= 100 && 0 <= p.response.sanitizeThreshold <= 100
    && 1 <= p.cache.ttlSeconds <= 86400
    && (forall i | 0 <= i < |p.providers| :: 1 <= p.providers[i].1.timeoutSeconds <= 120)
  }

  function ParsePolicy(d: Document): Option<Policy> {
    if d.Fields? && SchemaValid(d.policy) then Some(d.policy) else None
  }

  datatype Violation =
    | SchemaError | BadVersion | DlpDisabled | InjectionDisabled | InputThresholdTooLow | ResponseDisabled
    | ResponseThresholdTooLow | TooFewRequests | WindowTooShort | MissingRoles | AdminWithoutDashboard
    | ProviderTimeout(provider: string)

  const REQUIRED_ROLES: set<string> := {"admin", "analyst", "developer"}

  predicate HasRole(p: Policy, role: string) {
    exists i | 0 <= i < |p.rbac| :: Lower(p.rbac[i].0) == role
  }

  // The first entry whose name lower-cases to "admin".
  function AdminEntry(rbac: seq<(string, RolePolicy)>): Option<RolePolicy> {
    if rbac == [] then None
    else if Lower(rbac[0].0) == "admin" then Some(rbac[0].1)
    else AdminEntry(rbac[1..])
  }

  /** What a policy must provide before the gateway will use it. */
  predicate Guardrails(p: Policy) {
    && IsSemanticVersion(p.version)
    && p.input.dlpEnabled && p.input.injectionEnabled && p.response.enabled
    && p.input.blockThreshold >= 60 && p.response.blockThreshold >= 60
    && p.rateLimit.requests >= 1 && p.rateLimit.windowSeconds >= 1
    && (forall role | role in REQUIRED_ROLES :: HasRole(p, role))
    && AdminEntry(p.rbac).Some? && AdminEntry(p.rbac).value.dashboardAccess
    && (forall i | 0 <= i < |p.providers| :: 1 <= p.providers[i].1.timeoutSeconds <= 120)
  }

  predicate Acceptable(d: Document) {
    ParsePolicy(d).Some? && Guardrails(ParsePolicy(d).value)
  }

  lemma {:induction false} AdminEntryExists(rbac: seq<(string, RolePolicy)>)
    ensures AdminEntry(rbac).Some? <==> exists i | 0 <= i < |rbac| :: Lower(rbac[i].0) == "admin"
  {
    if rbac != [] {
      AdminEntryExists(rbac[1..]);
      if i :| 0 <= i < |rbac[1..]| && Lower(rbac[1..][i].0) == "admin" {
        assert Lower(rbac[i + 1].0) == "admin";
      }
      if i :| 0 < i < |rbac| && Lower(rbac[i].0) == "admin" {
        assert Lower(rbac[1..][i - 1].0) == "admin";
      }
    }
  }

  method LowerRoleNames(rbac: seq<(string, RolePolicy)>) returns (names: set<string>)
    ensures forall role :: role in names <==> exists i | 0 <= i < |rbac| :: Lower(rbac[i].0) == role
  {
    names := {};
    for i := 0 to |rbac|
      invariant forall role :: role in names <==> exists k | 0 <= k < i :: Lower(rbac[k].0) == role
    {
      names := names + {Lower(rbac[i].0)};
    }
  }

  method CheckProviders(providers: seq<(string, ProviderConfig)>) returns (errors: seq<Violation>)
    ensures errors == [] <==> forall i | 0 <= i < |providers| :: 1 <= providers[i].1.timeoutSeconds <= 120
    ensures forall e | e in errors :: e.ProviderTimeout?
  {
    errors := [];
    for i := 0 to |providers|
      invariant errors == [] <==> forall k | 0 <= k < i :: 1 <= providers[k].1.timeoutSeconds <= 120
      invariant forall e | e in errors :: e.ProviderTimeout?
    {
      if providers[i].1.timeoutSeconds < 1 || providers[i].1.timeoutSeconds > 120 {
        errors := errors + [ProviderTimeout(providers[i].0)];
      }
    }
  }

  predicate ProtectionOn(p: Policy) {
    && IsSemanticVersion(p.version)
    && p.input.dlpEnabled && p.input.injectionEnabled && p.response.enabled
    && p.input.blockThreshold >= 60 && p.response.blockThreshold >= 60
    && p.rateLimit.requests >= 1 && p.rateLimit.windowSeconds >= 1
  }

  method CheckInput(p: Policy) returns (errors: seq<Violation>)
    ensures errors == [] <==> p.input.dlpEnabled && p.input.injectionEnabled && p.input.blockThreshold >= 60
    ensures DlpDisabled in errors <==> !p.input.dlpEnabled
    ensures InjectionDisabled in errors <==> !p.input.injectionEnabled
    ensures forall e | e in errors :: e.DlpDisabled? || e.InjectionDisabled? || e.InputThresholdTooLow?
  {
    errors := [];
    if !p.input.dlpEnabled { errors := errors + [DlpDisabled]; }
    if !p.input.injectionEnabled { errors := errors + [InjectionDisabled]; }
    if p.input.blockThreshold < 60 { errors := errors + [InputThresholdTooLow]; }
  }

  method CheckResponse(p: Policy) returns (errors: seq<Violation>)
    ensures errors == [] <==> p.response.enabled && p.response.blockThreshold >= 60
    ensures ResponseDisabled in errors <==> !p.response.enabled
    ensures forall e | e in errors :: e.ResponseDisabled? || e.ResponseThresholdTooLow?
  {
    errors := [];
    if !p.response.enabled { errors := errors + [ResponseDisabled]; }
    if p.response.blockThreshold < 60 { errors := errors + [ResponseThresholdTooLow]; }
  }

  method CheckRateLimit(p: Policy) returns (errors: seq<Violation>)
    ensures errors == [] <==> p.rateLimit.requests >= 1 && p.rateLimit.windowSeconds >= 1
    ensures forall e | e in errors :: e.TooFewRequests? || e.WindowTooShort?
  {
    errors := [];
    if p.rateLimit.requests < 1 { errors := errors + [TooFewRequests]; }
    if p.rateLimit.windowSeconds < 1 { errors := errors + [WindowTooShort]; }
  }

  predicate RolesComplete(p: Policy) {
    forall role | role in REQUIRED_ROLES :: HasRole(p, role)
  }

  predicate AdminLacksDashboard(p: Policy) {
    AdminEntry(p.rbac).Some? && !AdminEntry(p.rbac).value.dashboardAccess
  }

  method CheckRoles(p: Policy) returns (errors: seq<Violation>)
    ensures MissingRoles in errors <==> !RolesComplete(p)
    ensures AdminWithoutDashboard in errors <==> AdminLacksDashboard(p)
    ensures forall e | e in errors :: e.MissingRoles? || e.AdminWithoutDashboard?
    ensures errors == [] <==> RolesComplete(p) && !AdminLacksDashboard(p)
  {
    errors := [];
    var names := LowerRoleNames(p.rbac);
    assert forall role :: role in names <==> HasRole(p, role);
    if !(REQUIRED_ROLES <= names) { errors := errors + [MissingRoles]; }
    var admin := AdminEntry(p.rbac);
    if admin.Some? && !admin.value.dashboardAccess { errors := errors + [AdminWithoutDashboard]; }
  }

  lemma GuardrailsAreTheChecks(p: Policy)
    ensures Guardrails(p) <==>
            && ProtectionOn(p) && RolesComplete(p) && !AdminLacksDashboard(p)
            && (forall i | 0 <= i < |p.providers| :: 1 <= p.providers[i].1.timeoutSeconds <= 120)
  {
    AdminEntryExists(p.rbac);
    assert "admin" in REQUIRED_ROLES;
    assert HasRole(p, "admin") <==> AdminEntry(p.rbac).Some?;
  }

  // Everything but the roles and the providers.
  method CheckProtection(p: Policy) returns (errors: seq<Violation>)
    ensures errors == [] <==> ProtectionOn(p)
    ensures DlpDisabled in errors <==> !p.input.dlpEnabled
    ensures InjectionDisabled in errors <==> !p.input.injectionEnabled
    ensures ResponseDisabled in errors <==> !p.response.enabled
    ensures MissingRoles !in errors && AdminWithoutDashboard !in errors
  {
    var input := CheckInput(p);
    var response := CheckResponse(p);
    var rate := CheckRateLimit(p);
    errors := (if IsSemanticVersion(p.version) then [] else [BadVersion]) + input + response + rate;
  }

  // ----- What acceptance means -----

  // The numbers are in range: limits and windows from 1, thresholds from 60 to 100, lifetimes up to a day,
  // timeouts up to two minutes; the version is three numbers between dots.
  ghost predicate WellFormed(p: Policy) {
    && (exists a, b, c | IsNumber(a) && IsNumber(b) && IsNumber(c) :: p.version == a + "." + b + "." + c)
    && 1 <= p.rateLimit.requests && 1 <= p.rateLimit.windowSeconds
    && 60 <= p.input.blockThreshold && p.input.blockThreshold <= 100
    && 60 <= p.response.blockThreshold && p.response.blockThreshold <= 100
    && 0 <= p.response.sanitizeThreshold && p.response.sanitizeThreshold <= 100
    && 1 <= p.cache.ttlSeconds && p.cache.ttlSeconds <= 86400
    && (forall entry | entry in p.providers :: 1 <= entry.1.timeoutSeconds && entry.1.timeoutSeconds <= 120)
  }

  // None of the three protections is switched off.
  predicate WellProtected(p: Policy) {
    p.input.dlpEnabled && p.input.injectionEnabled && p.response.enabled
  }

  // Each of the three roles is listed, in whatever case, and the first admin sees the dashboard.
  ghost predicate WellStaffed(rbac: seq<(string, RolePolicy)>) {
    && (exists i | 0 <= i < |rbac| :: Lower(rbac[i].0) == "analyst")
    && (exists i | 0 <= i < |rbac| :: Lower(rbac[i].0) == "developer")
    && (exists i | 0 <= i < |rbac| ::
          Lower(rbac[i].0) == "admin" && rbac[i].1.dashboardAccess
          && forall j | 0 <= j < i :: Lower(rbac[j].0) != "admin")
  }

  lemma VersionExactly(v: string)
    ensures IsSemanticVersion(v) <==>
            exists a, b, c | IsNumber(a) && IsNumber(b) && IsNumber(c) :: v == a + "." + b + "." + c
  {
    if IsSemanticVersion(v) {
      var parts := Split(v, '.');
      JoinOfSplit(v, '.');
      JoinOfThree(parts, '.');
    }
    if a, b, c :| IsNumber(a) && IsNumber(b) && IsNumber(c) && v == a + "." + b + "." + c {
      JoinOfThree([a, b, c], '.');
      SplitOfJoin([a, b, c], '.');
    }
  }

  lemma {:induction false} FirstAdmin(rbac: seq<(string, RolePolicy)>)
    ensures AdminEntry(rbac).Some? && AdminEntry(rbac).value.dashboardAccess <==>
            exists i | 0 <= i < |rbac| ::
              Lower(rbac[i].0) == "admin" && rbac[i].1.dashboardAccess
              && forall j | 0 <= j < i :: Lower(rbac[j].0) != "admin"
  {
    if rbac != [] && Lower(rbac[0].0) != "admin" {
      var rest := rbac[1..];
      FirstAdmin(rest);
      if i :| 0 <= i < |rest| && Lower(rest[i].0) == "admin" && rest[i].1.dashboardAccess
              && forall j | 0 <= j < i :: Lower(rest[j].0) != "admin" {
        assert forall j | 0 < j < i + 1 :: rbac[j] == rest[j - 1];
        assert rbac[i + 1] == rest[i];
      }
      if i :| 0 <= i < |rbac| && Lower(rbac[i].0) == "admin" && rbac[i].1.dashboardAccess
              && forall j | 0 <= j < i :: Lower(rbac[j].0) != "admin" {
        assert forall j | 0 <= j < i - 1 :: rest[j] == rbac[j + 1];
        assert rest[i - 1] == rbac[i];
      }
    }
  }

  lemma RolesExactly(p: Policy)
    ensures RolesComplete(p) && AdminEntry(p.rbac).Some? && AdminEntry(p.rbac).value.dashboardAccess
            <==> WellStaffed(p.rbac)
  {
    FirstAdmin(p.rbac);
    AdminEntryExists(p.rbac);
  }

  /** A document parses if and only if it is an object whose version and numbers are in range. */
  lemma ParsesExactly(d: Document)
    ensures ParsePolicy(d).Some? <==> d.Fields? && WellFormed(d.policy)
    ensures ParsePolicy(d).Some? ==> ParsePolicy(d).value == d.policy
  {
    if d.Fields? {
      VersionExactly(d.policy.version);
      TimeoutsExactly(d.policy.providers);
    }
  }

  /** A document is acceptable if and only if its numbers are in range, no protection is off, and the three
      roles are there with an admin who sees the dashboard. */
  lemma AcceptableExactly(d: Document)
    ensures Acceptable(d)
            <==> d.Fields? && WellProtected(d.policy) && WellFormed(d.policy) && WellStaffed(d.policy.rbac)
  {
    if d.Fields? {
      var p := d.policy;
      VersionExactly(p.version);
      RolesExactly(p);
      TimeoutsExactly(p.providers);
    }
  }

  lemma TimeoutsExactly(providers: seq<(string, ProviderConfig)>)
    ensures (forall i | 0 <= i < |providers| :: 1 <= providers[i].1.timeoutSeconds <= 120) <==>
            (forall entry | entry in providers :: 1 <= entry.1.timeoutSeconds && entry.1.timeoutSeconds <= 120)
  {
    if forall entry | entry in providers :: 1 <= entry.1.timeoutSeconds && entry.1.timeoutSeconds <= 120 {
      assert forall i | 0 <= i < |providers| :: providers[i] in providers;
    }
  }

  // `validate_security_policy`: accepted exactly when the document parses and meets every guardrail.
  method ValidateSecurityPolicy(d: Document) returns (ok: bool, policy: Option<Policy>, errors: seq<Violation>)
    ensures ok <==> Acceptable(d)
    ensures ok <==> errors == []
    ensures policy == if ok then ParsePolicy(d) else None
    ensures ParsePolicy(d).Some? ==>
              var p := ParsePolicy(d).value;
              && (DlpDisabled in errors <==> !p.input.dlpEnabled)
              && (InjectionDisabled in errors <==> !p.input.injectionEnabled)
              && (ResponseDisabled in errors <==> !p.response.enabled)
              && (MissingRoles in errors <==> !RolesComplete(p))
              && (AdminWithoutDashboard in errors <==> AdminLacksDashboard(p))
  {
    if ParsePolicy(d).None? {
      return false, None, [SchemaError];
    }
    var p := ParsePolicy(d).value;
    var protection := CheckProtection(p);
    var roles := CheckRoles(p);
    var timeouts := CheckProviders(p.providers);
    errors := protection + roles + timeouts;
    GuardrailsAreTheChecks(p);
    ok := errors == [];
    policy := if ok then Some(p) else None;
  }

  // ----- The built-in default -----

  const ADMIN_MODELS: seq<string> :=
    ["mock-model", "gpt-4o-mini", "gpt-4", "gpt-4o", "claude-3-5-sonnet-latest", "claude-3-haiku-20240307"]

  const DEFAULT_POLICY: Policy := Policy(
    "1.0.0",
    RateLimitPolicy(10, 60),
    InputPolicy(true, true, 60),
    ResponsePolicy(true, 80, 30),
    CachePolicy(true, 300),
    [("admin", RolePolicy(ADMIN_MODELS, true)),
     ("analyst", RolePolicy(["mock-model", "gpt-4o-mini", "claude-3-5-sonnet-latest"], true)),
     ("developer", RolePolicy(["mock-model"], false))],
    [("mock", ProviderConfig(true, ["mock-model"], 30)),
     ("openai", ProviderConfig(true, ["gpt-4o-mini", "gpt-4", "gpt-4o", "o1-mini"], 30)),
     ("anthropic", ProviderConfig(true, ["claude-3-5-sonnet-latest", "claude-3-haiku-20240307"], 30))])

  lemma LowerOfRoles()
    ensures Lower("admin") == "admin" && Lower("analyst") == "analyst" && Lower("developer") == "developer"
  {
  }

  lemma VersionOne()
    ensures IsSemanticVersion("1.0.0")
  {
    assert "1.0.0" == Join(["1", "0", "0"], '.');
    SplitOfJoin(["1", "0", "0"], '.');
  }

  lemma DefaultRoles()
    ensures RolesComplete(DEFAULT_POLICY) && !AdminLacksDashboard(DEFAULT_POLICY)
  {
    LowerOfRoles();
    var rbac := DEFAULT_POLICY.rbac;
    assert Lower(rbac[0].0) == "admin" && Lower(rbac[1].0) == "analyst" && Lower(rbac[2].0) == "developer";
    assert AdminEntry(rbac) == Some(rbac[0].1);
  }

  lemma DefaultFields()
    ensures SchemaValid(DEFAULT_POLICY) && ProtectionOn(DEFAULT_POLICY)
  {
    VersionOne();
  }

  /** The fallback itself meets every guardrail. */
  lemma DefaultIsAcceptable()
    ensures Acceptable(Fields(DEFAULT_POLICY))
  {
    DefaultFields();
    DefaultRoles();
    AcceptableWhenChecked(DEFAULT_POLICY);
  }

  lemma AcceptableWhenChecked(p: Policy)
    requires SchemaValid(p) && ProtectionOn(p) && RolesComplete(p) && !AdminLacksDashboard(p)
    ensures Acceptable(Fields(p))
  {
    GuardrailsAreTheChecks(p);
  }

  /** The fallback's numbers. */
  lemma DefaultNumbers()
    ensures DEFAULT_POLICY.rateLimit.requests == 10 && DEFAULT_POLICY.rateLimit.windowSeconds == 60
    ensures DEFAULT_POLICY.input.blockThreshold == 60 && DEFAULT_POLICY.response.blockThreshold == 80
    ensures DEFAULT_POLICY.response.sanitizeThreshold == 30
    ensures DEFAULT_POLICY.cache.enabled && DEFAULT_POLICY.cache.ttlSeconds == 300
    ensures forall entry | entry in DEFAULT_POLICY.providers :: entry.1.enabled && entry.1.timeoutSeconds == 30
  {
  }

  /** And its providers. */
  lemma DefaultProviders()
    ensures |DEFAULT_POLICY.providers| == 3
    ensures DEFAULT_POLICY.providers[0].0 == "mock" && DEFAULT_POLICY.providers[1].0 == "openai"
    ensures DEFAULT_POLICY.providers[2].0 == "anthropic"
    ensures DEFAULT_POLICY.providers[0].1.allowedModels == ["mock-model"]
    ensures DEFAULT_POLICY.providers[1].1.allowedModels == ["gpt-4o-mini", "gpt-4", "gpt-4o", "o1-mini"]
    ensures DEFAULT_POLICY.providers[2].1.allowedModels == ["claude-3-5-sonnet-latest", "claude-3-haiku-20240307"]
  {
  }
}
