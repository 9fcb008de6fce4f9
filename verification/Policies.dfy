/** Role grants, the policy rules they stand for, and the table of projected policies. Rows are identified by their
    unique key, so a table is a set of rules no two of which share a key. */
module Policies {
  import opened Common

  datatype PolicyRule = PolicyRule(
    tenantId: string, subject: string, resource: string, action: string,
    roleGrantId: string, policyVersion: int, effect: string)

  datatype RuleKey = RuleKey(tenantId: string, subject: string, resource: string, action: string, roleGrantId: string)

  datatype RoleGrant = RoleGrant(
    id: string, tenantId: string, subjectType: string, subjectId: string, roleTemplateId: string, policyVersion: int)

  datatype Permission = Permission(resource: string, action: string)

  datatype RoleTemplate = RoleTemplate(id: string, scope: string, permissions: seq<Permission>)

  /** The registered permissions with their scopes, when there is a registry. */
  type Registry = Option<set<(Permission, string)>>

  /** A tenant and a subject in it: what a grant is for, and what a cached decision is for. */
  datatype Party = Party(tenantId: string, subject: string)

  function KeyOf(rule: PolicyRule): RuleKey {
    RuleKey(rule.tenantId, rule.subject, rule.resource, rule.action, rule.roleGrantId)
  }

  function PartyOf(rule: PolicyRule): Party {
    Party(rule.tenantId, rule.subject)
  }

  function GrantParty(grant: RoleGrant): Party {
    Party(grant.tenantId, grant.subjectType + ":" + grant.subjectId)
  }

  // ----- the rules of a grant -----

  function RuleFor(grant: RoleGrant, p: Permission): PolicyRule {
    PolicyRule(grant.tenantId, GrantParty(grant).subject, p.resource, p.action, grant.id, grant.policyVersion, "allow")
  }

  predicate Registered(template: RoleTemplate, registry: Registry) {
    registry.Some? ==> forall p | p in template.permissions :: (p, template.scope) in registry.value
  }

  function RulesForGrant(grant: RoleGrant, template: RoleTemplate, registry: Registry): Result<seq<PolicyRule>> {
    if Registered(template, registry)
    then Ok(seq(|template.permissions|, i requires 0 <= i < |template.permissions| => RuleFor(grant, template.permissions[i])))
    else Err(ValidationError)
  }

  function RuleSet(rules: seq<PolicyRule>): set<PolicyRule> {
    set r | r in rules
  }

  predicate DistinctPermissions(template: RoleTemplate) {
    forall i, j | 0 <= i < j < |template.permissions| :: template.permissions[i] != template.permissions[j]
  }

  /** Two rules have one key exactly when they agree on grant, tenant, subject, resource and action. */
  lemma KeyColumns(a: PolicyRule, b: PolicyRule)
    ensures KeyOf(a) == KeyOf(b) <==>
            && a.tenantId == b.tenantId && a.subject == b.subject && a.resource == b.resource && a.action == b.action
            && a.roleGrantId == b.roleGrantId
  {
  }

  /** The unique constraint on projected policies. */
  predicate UniqueKeys(table: set<PolicyRule>) {
    forall a, b | a in table && b in table :: KeyOf(a) == KeyOf(b) ==> a == b
  }

  predicate DistinctRuleKeys(rules: seq<PolicyRule>) {
    forall i, j | 0 <= i < j < |rules| :: KeyOf(rules[i]) != KeyOf(rules[j])
  }

  /** A grant's rules can be stored as rows exactly when its template lists no permission twice. */
  lemma RulesDistinctIff(grant: RoleGrant, template: RoleTemplate, registry: Registry)
    requires Registered(template, registry)
    ensures DistinctRuleKeys(RulesForGrant(grant, template, registry).value) <==> DistinctPermissions(template)
  {
    var rules := RulesForGrant(grant, template, registry).value;
    assert forall i | 0 <= i < |rules| :: rules[i] == RuleFor(grant, template.permissions[i]);
    if !DistinctPermissions(template) {
      var i, j :| 0 <= i < j < |template.permissions| && template.permissions[i] == template.permissions[j];
      assert KeyOf(rules[i]) == KeyOf(rules[j]);
    }
  }

  // ----- projecting and removing one grant -----

  function Without(table: set<PolicyRule>, grantId: string): set<PolicyRule> {
    set r | r in table && r.roleGrantId != grantId
  }

  /** The table after projecting a grant: its old rows replaced by its rules. Two equal permissions break the unique
      constraint; a blank tenant breaks the cache key of the invalidation. Either way nothing is stored. */
  function Projected(table: set<PolicyRule>, grant: RoleGrant, template: RoleTemplate,
                     registry: Registry): Result<set<PolicyRule>> {
    var rules := RulesForGrant(grant, template, registry);
    if rules.Err? then Err(rules.error)
    else if Blank(grant.tenantId) then Err(ValidationError)
    else if !DistinctRuleKeys(rules.value) then Err(IntegrityError)
    else Ok(Without(table, grant.id) + RuleSet(rules.value))
  }

  /** The parties that a grant's rows are for. */
  function ProjectedParties(table: set<PolicyRule>, grantId: string): set<Party> {
    set r | r in table && r.roleGrantId == grantId :: PartyOf(r)
  }

  lemma ProjectedKeepsUnique(table: set<PolicyRule>, grant: RoleGrant, template: RoleTemplate, registry: Registry)
    requires UniqueKeys(table) && Projected(table, grant, template, registry).Ok?
    ensures UniqueKeys(Projected(table, grant, template, registry).value)
  {
    var rules := RulesForGrant(grant, template, registry).value;
    assert forall r | r in rules :: r.roleGrantId == grant.id;
    forall a, b | a in rules && b in rules && KeyOf(a) == KeyOf(b)
      ensures a == b
    {
    }
  }

  // ----- what the grants stand for -----

  predicate DistinctIds(grants: seq<RoleGrant>) {
    forall i, j | 0 <= i < j < |grants| :: grants[i].id != grants[j].id
  }

  /** The rules of the first n grants whose template exists, up to the first one whose permissions are refused. */
  function ExpectedFirst(grants: seq<RoleGrant>, templates: map<string, RoleTemplate>, registry: Registry,
                         n: nat): Result<seq<PolicyRule>>
    requires n <= |grants|
  {
    if n == 0 then Ok([])
    else
      var before := ExpectedFirst(grants, templates, registry, n - 1);
      var grant := grants[n - 1];
      if before.Err? || grant.roleTemplateId !in templates then before
      else
        var rules := RulesForGrant(grant, templates[grant.roleTemplateId], registry);
        if rules.Err? then rules else Ok(before.value + rules.value)
  }

  /** The registry, if there is one, knows every permission of every template that one of the first n grants has. */
  predicate AllRegistered(grants: seq<RoleGrant>, templates: map<string, RoleTemplate>, registry: Registry, n: nat)
    requires n <= |grants|
  {
    forall i | 0 <= i < n && grants[i].roleTemplateId in templates ::
      var template := templates[grants[i].roleTemplateId];
      registry.Some? ==> forall p | p in template.permissions :: (p, template.scope) in registry.value
  }

  lemma {:induction false} ExpectedOkIff(grants: seq<RoleGrant>, templates: map<string, RoleTemplate>,
                                         registry: Registry, n: nat)
    requires n <= |grants|
    ensures ExpectedFirst(grants, templates, registry, n).Ok? <==> AllRegistered(grants, templates, registry, n)
    ensures ExpectedFirst(grants, templates, registry, n).Err? ==> ExpectedFirst(grants, templates, registry, n) == Err(ValidationError)
  {
    if n > 0 {
      ExpectedOkIff(grants, templates, registry, n - 1);
    }
  }

  /** A rule is expected exactly when some grant has a template that lists its permission. */
  predicate StandsFor(grants: seq<RoleGrant>, templates: map<string, RoleTemplate>, n: nat, rule: PolicyRule)
    requires n <= |grants|
  {
    exists i | 0 <= i < n :: GrantGives(grants[i], templates, rule)
  }

  predicate GrantGives(grant: RoleGrant, templates: map<string, RoleTemplate>, rule: PolicyRule) {
    grant.roleTemplateId in templates && TemplateGives(grant, templates[grant.roleTemplateId], rule)
  }

  /** The rule is an allow row of the grant, for its tenant and subject and a permission that the template lists. */
  predicate TemplateGives(grant: RoleGrant, template: RoleTemplate, rule: PolicyRule) {
    && rule.roleGrantId == grant.id && rule.policyVersion == grant.policyVersion && rule.effect == "allow"
    && rule.tenantId == grant.tenantId && rule.subject == grant.subjectType + ":" + grant.subjectId
    && exists p | p in template.permissions :: p.resource == rule.resource && p.action == rule.action
  }

  lemma RulesAreGiven(grant: RoleGrant, template: RoleTemplate, registry: Registry, rule: PolicyRule)
    requires Registered(template, registry)
    ensures rule in RulesForGrant(grant, template, registry).value <==> TemplateGives(grant, template, rule)
  {
    var rules := RulesForGrant(grant, template, registry).value;
    if TemplateGives(grant, template, rule) {
      var p :| p in template.permissions && p.resource == rule.resource && p.action == rule.action;
      var i :| 0 <= i < |template.permissions| && template.permissions[i] == p;
      assert rules[i] == rule;
    }
    if rule in rules {
      var i :| 0 <= i < |rules| && rules[i] == rule;
      assert template.permissions[i] in template.permissions;
    }
  }

  lemma {:induction false} ExpectedExact(grants: seq<RoleGrant>, templates: map<string, RoleTemplate>, registry: Registry,
                                         n: nat, rule: PolicyRule)
    requires n <= |grants| && ExpectedFirst(grants, templates, registry, n).Ok?
    ensures rule in ExpectedFirst(grants, templates, registry, n).value <==> StandsFor(grants, templates, n, rule)
  {
    hide RulesForGrant, RuleFor;
    if n > 0 {
      var grant := grants[n - 1];
      ExpectedExact(grants, templates, registry, n - 1, rule);
      if grant.roleTemplateId in templates {
        ErrIffUnregistered(grant, templates[grant.roleTemplateId], registry);
        RulesAreGiven(grant, templates[grant.roleTemplateId], registry, rule);
      }
      if StandsFor(grants, templates, n, rule) {
        var i :| 0 <= i < n && GrantGives(grants[i], templates, rule);
      }
      assert GrantGives(grant, templates, rule) ==> StandsFor(grants, templates, n, rule);
    }
  }

  lemma ErrIffUnregistered(grant: RoleGrant, template: RoleTemplate, registry: Registry)
    ensures RulesForGrant(grant, template, registry).Ok? <==> Registered(template, registry)
  {
  }

  /** Expected rules with one key are one rule: the key names the grant, and the grant decides the rest. */
  lemma ExpectedUnique(grants: seq<RoleGrant>, templates: map<string, RoleTemplate>, registry: Registry)
    requires DistinctIds(grants) && ExpectedFirst(grants, templates, registry, |grants|).Ok?
    ensures UniqueKeys(RuleSet(ExpectedFirst(grants, templates, registry, |grants|).value))
  {
    var expected := ExpectedFirst(grants, templates, registry, |grants|).value;
    forall a, b | a in expected && b in expected && KeyOf(a) == KeyOf(b)
      ensures a == b
    {
      ExpectedExact(grants, templates, registry, |grants|, a);
      ExpectedExact(grants, templates, registry, |grants|, b);
      var i :| 0 <= i < |grants| && GrantGives(grants[i], templates, a);
      var j :| 0 <= j < |grants| && GrantGives(grants[j], templates, b);
      assert grants[i].id == a.roleGrantId == b.roleGrantId == grants[j].id;
      assert i == j;
    }
  }

  // ----- reconciliation -----

  datatype Reconciliation = Reconciliation(repaired: bool, missing: set<PolicyRule>, stale: set<PolicyRule>)

  /** Rules that no row holds are missing; rows that are no expected rule are stale. A row that differs from the
      expected rule of its key counts on both sides. */
  function Missing(expected: set<PolicyRule>, table: set<PolicyRule>): set<PolicyRule> {
    expected - table
  }

  function Stale(expected: set<PolicyRule>, table: set<PolicyRule>): set<PolicyRule> {
    table - expected
  }

  function Repaired(expected: set<PolicyRule>, table: set<PolicyRule>): set<PolicyRule> {
    (table - Stale(expected, table)) + Missing(expected, table)
  }

  /** After a repair the table holds the expected rules and nothing else, whatever it held before; the unique
      constraint holds, and another reconciliation finds nothing. */
  lemma RepairReachesExpected(grants: seq<RoleGrant>, templates: map<string, RoleTemplate>, registry: Registry,
                              table: set<PolicyRule>)
    requires DistinctIds(grants) && ExpectedFirst(grants, templates, registry, |grants|).Ok?
    ensures var expected := RuleSet(ExpectedFirst(grants, templates, registry, |grants|).value);
            var repaired := Repaired(expected, table);
            && (forall rule :: rule in repaired <==> StandsFor(grants, templates, |grants|, rule))
            && UniqueKeys(repaired)
            && Missing(expected, repaired) == {} && Stale(expected, repaired) == {}
  {
    var expected := RuleSet(ExpectedFirst(grants, templates, registry, |grants|).value);
    assert Repaired(expected, table) == expected;
    ExpectedUnique(grants, templates, registry);
    forall rule
      ensures rule in expected <==> StandsFor(grants, templates, |grants|, rule)
    {
      ExpectedExact(grants, templates, registry, |grants|, rule);
    }
  }

  /** Projecting every grant in turn from an empty table. */
  function RebuiltFirst(grants: seq<RoleGrant>, templates: map<string, RoleTemplate>, registry: Registry,
                        n: nat): Result<set<PolicyRule>>
    requires n <= |grants|
  {
    if n == 0 then Ok({})
    else
      var before := RebuiltFirst(grants, templates, registry, n - 1);
      var grant := grants[n - 1];
      if before.Err? then before
      else if grant.roleTemplateId !in templates then Err(NotFound)
      else Projected(before.value, grant, templates[grant.roleTemplateId], registry)
  }

  /** What `project_grant` needs of a grant. */
  predicate Projectable(grant: RoleGrant, templates: map<string, RoleTemplate>, registry: Registry) {
    && grant.roleTemplateId in templates
    && Registered(templates[grant.roleTemplateId], registry)
    && DistinctPermissions(templates[grant.roleTemplateId])
    && !Blank(grant.tenantId)
  }

  lemma {:induction false} RebuildStep(grants: seq<RoleGrant>, templates: map<string, RoleTemplate>, registry: Registry,
                                       n: nat)
    requires n <= |grants| && DistinctIds(grants)
    ensures RebuiltFirst(grants, templates, registry, n).Ok? <==> forall i | 0 <= i < n :: Projectable(grants[i], templates, registry)
    ensures RebuiltFirst(grants, templates, registry, n).Ok? ==>
              && ExpectedFirst(grants, templates, registry, n).Ok?
              && RebuiltFirst(grants, templates, registry, n).value == RuleSet(ExpectedFirst(grants, templates, registry, n).value)
  {
    hide RulesForGrant, DistinctPermissions, Registered, DistinctRuleKeys;
    if n > 0 {
      RebuildStep(grants, templates, registry, n - 1);
      var grant := grants[n - 1];
      if grant.roleTemplateId in templates {
        var template := templates[grant.roleTemplateId];
        ErrIffUnregistered(grant, template, registry);
        if Registered(template, registry) {
          RulesDistinctIff(grant, template, registry);
        }
      }
      if RebuiltFirst(grants, templates, registry, n).Ok? {
        var before := RebuiltFirst(grants, templates, registry, n - 1).value;
        forall rule | rule in before
          ensures rule.roleGrantId != grant.id
        {
          ExpectedExact(grants, templates, registry, n - 1, rule);
        }
        assert Without(before, grant.id) == before;
      }
    }
  }

  /** Repairing any table and projecting all grants into an empty one give the same table; the second way goes through
      exactly when every grant can be projected. */
  lemma RepairEqualsRebuild(grants: seq<RoleGrant>, templates: map<string, RoleTemplate>, registry: Registry,
                            table: set<PolicyRule>)
    requires DistinctIds(grants)
    ensures RebuiltFirst(grants, templates, registry, |grants|).Ok? <==>
            forall i | 0 <= i < |grants| :: Projectable(grants[i], templates, registry)
    ensures RebuiltFirst(grants, templates, registry, |grants|).Ok? ==>
              && ExpectedFirst(grants, templates, registry, |grants|).Ok?
              && RebuiltFirst(grants, templates, registry, |grants|).value ==
                 Repaired(RuleSet(ExpectedFirst(grants, templates, registry, |grants|).value), table)
  {
    RebuildStep(grants, templates, registry, |grants|);
    if RebuiltFirst(grants, templates, registry, |grants|).Ok? {
      var expected := RuleSet(ExpectedFirst(grants, templates, registry, |grants|).value);
      assert Repaired(expected, table) == expected;
    }
  }

  // ----- the comparison loops -----

  /** The dictionary from keys to rules; of two rules with one key the later one stays. */
  method ByKey(rules: seq<PolicyRule>) returns (byKey: map<RuleKey, PolicyRule>)
    requires UniqueKeys(RuleSet(rules))
    ensures Keyed(byKey) && forall r :: Holds(byKey, r) <==> r in RuleSet(rules)
  {
    byKey := map[];
    for n := 0 to |rules|
      invariant forall key | key in byKey :: byKey[key] in rules[..n] && KeyOf(byKey[key]) == key
      invariant forall i | 0 <= i < n :: KeyOf(rules[i]) in byKey && byKey[KeyOf(rules[i])] == rules[i]
    {
      assert rules[n] in RuleSet(rules) && forall i | 0 <= i < n :: rules[i] in RuleSet(rules);
      byKey := byKey[KeyOf(rules[n]) := rules[n]];
    }
    assert rules[..|rules|] == rules;
  }

  predicate Keyed(byKey: map<RuleKey, PolicyRule>) {
    forall key | key in byKey :: KeyOf(byKey[key]) == key
  }

  predicate Holds(byKey: map<RuleKey, PolicyRule>, rule: PolicyRule) {
    KeyOf(rule) in byKey && byKey[KeyOf(rule)] == rule
  }

  /** The loop over the expected rules: those without a row, and both sides of those whose row differs. */
  method CompareExpected(expected: map<RuleKey, PolicyRule>, actual: map<RuleKey, PolicyRule>)
    returns (missing: seq<PolicyRule>, stale: seq<PolicyRule>)
    requires Keyed(expected) && Keyed(actual)
    ensures forall r :: r in missing <==> Holds(expected, r) && !Holds(actual, r)
    ensures forall r :: r in stale <==> Holds(actual, r) && !Holds(expected, r) && KeyOf(r) in expected
  {
    missing, stale := [], [];
    var keys := expected.Keys;
    while keys != {}
      invariant keys <= expected.Keys
      invariant forall r :: r in missing <==> Holds(expected, r) && !Holds(actual, r) && KeyOf(r) !in keys
      invariant forall r :: r in stale <==> Holds(actual, r) && !Holds(expected, r) && KeyOf(r) in expected.Keys - keys
      decreases |keys|
    {
      var key :| key in keys;
      keys := keys - {key};
      if key !in actual {
        missing := missing + [expected[key]];
      } else if actual[key] != expected[key] {
        missing := missing + [expected[key]];
        stale := stale + [actual[key]];
      }
    }
  }

  /** The loop over the stored rows: those whose key is not expected. */
  method CompareActual(expected: map<RuleKey, PolicyRule>, actual: map<RuleKey,
                       PolicyRule>) returns (stale: seq<PolicyRule>)
    requires Keyed(actual)
    ensures forall r :: r in stale <==> Holds(actual, r) && KeyOf(r) !in expected
  {
    stale := [];
    var keys := actual.Keys;
    while keys != {}
      invariant keys <= actual.Keys
      invariant forall r :: r in stale <==> Holds(actual, r) && KeyOf(r) !in expected && KeyOf(r) !in keys
      decreases |keys|
    {
      var key :| key in keys;
      keys := keys - {key};
      if key !in expected {
        stale := stale + [actual[key]];
      }
    }
  }

  /** Compares the expected rules with the stored ones key by key. */
  method Compare(expected: seq<PolicyRule>, stored: seq<PolicyRule>) returns (missing: seq<PolicyRule>,
                 stale: seq<PolicyRule>)
    requires UniqueKeys(RuleSet(expected)) && UniqueKeys(RuleSet(stored))
    ensures RuleSet(missing) == Missing(RuleSet(expected), RuleSet(stored))
    ensures RuleSet(stale) == Stale(RuleSet(expected), RuleSet(stored))
  {
    var expectedByKey := ByKey(expected);
    var actualByKey := ByKey(stored);
    missing, stale := CompareExpected(expectedByKey, actualByKey);
    var others := CompareActual(expectedByKey, actualByKey);
    stale := stale + others;
  }
}
