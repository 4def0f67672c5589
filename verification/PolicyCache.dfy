/** The active security policy: `CacheAside` with the policy validator as the reading rule. */
module PolicyCache {
  import opened Common
  import opened CacheAside
  import opened PolicyValidator

  // What a stored document yields: a policy only when it passes the schema and every guardrail.
  function ReadPolicy(d: Document): Option<Policy> {
    if Acceptable(d) then ParsePolicy(d) else None
  }

  const RULES: Rules<Document, Policy> := Rules(ReadPolicy, DEFAULT_POLICY, Fields(DEFAULT_POLICY), "1.0.0")

  // The rules spelt out for one active row.
  lemma ActiveRowIsServed(rows: Table<Document>, v: string)
    requires AtMostOneActive(rows) && v in rows && rows[v].active
    ensures Idle(RULES, rows) <==> !Acceptable(rows[v].document)
    ensures Acceptable(rows[v].document) ==> Serves(RULES, rows, ParsePolicy(rows[v].document).value)
    ensures Acceptable(rows[v].document) ==> Guardrails(ParsePolicy(rows[v].document).value)
  {
  }

  function GetDefaultPolicy(): (p: Policy)
    ensures Guardrails(p) && p == DEFAULT_POLICY
  {
    DefaultIsAcceptable();
    DEFAULT_POLICY
  }

  class PolicyStore {
    var now: nat
    var rows: Table<Document>
    var cached: Option<Copy<Policy>>

    ghost predicate Valid()
      reads this
    {
      AtMostOneActive(rows) && (cached.Some? ==> Guardrails(cached.value.policy))
    }

    predicate Hit(get: Fault)
      reads this
    {
      get == Works && cached.Some? && now < cached.value.dead
    }

    // `get_active_policy`; `pick` is the row the query returned.
    method GetActivePolicy(get: Fault, query: Fault, pick: Option<string>, setex: Fault)
      returns (p: Policy, source: Source)
      requires Valid() && Selects(rows, pick)
      modifies this`cached
      ensures Valid() && Guardrails(p)
      ensures Result(p, source, cached) == Called(RULES, old(cached), rows, now, get, query, pick, setex)
      ensures source == Cache <==> old(Hit(get))
      ensures source == Cache ==> p == old(cached).value.policy && cached == old(cached)
      ensures source == Database <==> source != Cache && query == Works && !Idle(RULES, rows)
      ensures source == Database ==> Serves(RULES, rows, p)
      ensures source == Database ==> cached == if setex == NotSent then old(cached) else Some(Copy(p, now + 60))
      ensures source == Fallback ==> p == DEFAULT_POLICY && cached == old(cached)
    {
      if Hit(get) {
        return cached.value.policy, Cache;
      }
      if query == Works && pick.Some? {
        var ok, policy, _ := ValidateSecurityPolicy(rows[pick.value].document);
        ActiveRowIsServed(rows, pick.value);
        if ok {
          p, source := policy.value, Database;
          if setex != NotSent {
            cached := Some(Copy(p, now + CACHE_TTL));
          }
          return;
        }
      }
      p, source := GetDefaultPolicy(), Fallback;
    }

    // `create_policy`: false stands for its 422 and 409 answers.
    method CreatePolicy(version: string, d: Document) returns (ok: bool)
      requires Valid()
      modifies this`rows
      ensures Valid()
      ensures ok <==> Acceptable(d) && version !in old(rows)
      ensures rows == Created(RULES, old(rows), version, d)
      ensures rows == if ok then old(rows)[version := Row(d, false)] else old(rows)
    {
      var valid, _, _ := ValidateSecurityPolicy(d);
      if !valid || version in rows {
        return false;
      }
      rows := rows[version := Row(d, false)];
      return true;
    }

    // `activate_policy`: false stands for its 404 and 400 answers.
    method ActivatePolicy(version: string, del: Fault) returns (ok: bool)
      requires Valid()
      modifies this`rows, this`cached
      ensures Valid()
      ensures ok <==> CanActivate(RULES, old(rows), version)
      ensures rows == Activated(RULES, old(rows), version)
      ensures ok <==> version in old(rows) && Acceptable(old(rows)[version].document)
      ensures rows.Keys == old(rows).Keys
      ensures forall v | v in rows :: rows[v] == if ok then old(rows)[v].(active := v == version) else old(rows)[v]
      ensures cached == if ok && del != NotSent then None else old(cached)
    {
      if version !in rows {
        return false;
      }
      var valid, _, _ := ValidateSecurityPolicy(rows[version].document);
      if !valid {
        return false;
      }
      rows := map v | v in rows :: rows[v].(active := false);
      rows := rows[version := rows[version].(active := true)];
      if del != NotSent {
        cached := None;
      }
      return true;
    }

    // `init_default_policy_if_empty`
    method InitDefaultPolicyIfEmpty()
      requires Valid()
      modifies this`rows
      ensures Valid() && rows == Bootstrapped(RULES, old(rows))
      ensures rows == if old(rows) == map[] then map["1.0.0" := Row(Fields(DEFAULT_POLICY), true)] else old(rows)
    {
      if rows.Keys == {} {
        rows := rows["1.0.0" := Row(Fields(DEFAULT_POLICY), true)];
      }
    }
  }

  lemma ReadableMeetsGuardrails(p: Policy)
    requires Readable(RULES, p)
    ensures Guardrails(p) && SchemaValid(p)
  {
    DefaultIsAcceptable();
    if p != DEFAULT_POLICY {
      var d :| RULES.read(d) == Some(p);
      assert Acceptable(d) && p == ParsePolicy(d).value;
    }
  }

  /** Whatever fails and however calls interleave, every policy handed to a caller, and every one in
      the cache, satisfies all guardrails, although a cache hit re-checks the schema alone. */
  lemma AnswersMeetGuardrails(rows: Table<Document>, steps: seq<Step<Document>>)
    ensures var s := Run(RULES, Initial(rows), steps);
            && (s.cached.Some? ==> Guardrails(s.cached.value.policy))
            && forall i | 0 <= i < |s.answers| :: Guardrails(s.answers[i].policy) && SchemaValid(s.answers[i].policy)
  {
    var s := Run(RULES, Initial(rows), steps);
    AnswersAreReadable(RULES, rows, steps);
    if s.cached.Some? { ReadableMeetsGuardrails(s.cached.value.policy); }
    forall i | 0 <= i < |s.answers|
      ensures Guardrails(s.answers[i].policy) && SchemaValid(s.answers[i].policy)
    {
      ReadableMeetsGuardrails(s.answers[i].policy);
    }
  }
}
