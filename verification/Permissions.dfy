/** Policy decisions: the backends that look a query up in the projected policies, the cache in front of one of them,
    and the projector that keeps the policies and the cache in step with the role grants. */
module Permissions {
  import opened Common
  import opened MemoryCache
  import opened PermissionCache
  import opened Policies

  // ----- what a backend answers -----

  const PROJECTED := "matched_projected_policy"
  const CASBIN := "matched_casbin_equivalent_policy"

  predicate Allows(rule: PolicyRule, q: Query) {
    && rule.tenantId == q.tenantId && rule.subject == q.subject && rule.resource == q.resource && rule.action == q.action
    && rule.effect == "allow"
  }

  function FromRule(rule: PolicyRule, reason: string): PolicyMatch {
    PolicyMatch(rule.tenantId, rule.subject, rule.resource, rule.action, rule.roleGrantId, rule.policyVersion, rule.effect, reason)
  }

  /** An allow row for the query, of the newest policy version among them. */
  predicate Newest(table: set<PolicyRule>, q: Query, rule: PolicyRule) {
    && rule in table && Allows(rule, q)
    && forall other | other in table && Allows(other, q) :: other.policyVersion <= rule.policyVersion
  }

  predicate Matched(table: set<PolicyRule>, q: Query, m: PolicyMatch, reason: string) {
    exists rule | rule in table :: Newest(table, q, rule) && m == FromRule(rule, reason)
  }

  /** None when no row allows the query, and otherwise a row of the newest policy version. */
  predicate Answers(table: set<PolicyRule>, q: Query, answer: Option<PolicyMatch>, reason: string) {
    if answer.None? then forall rule | rule in table :: !Allows(rule, q) else Matched(table, q, answer.value, reason)
  }

  /** Two answers over the same rules differ at most in the row they name: both are None, or both allow at the same
      policy version. */
  lemma BackendsAgree(table: set<PolicyRule>, q: Query, a: Option<PolicyMatch>, b: Option<PolicyMatch>)
    requires Answers(table, q, a, PROJECTED) && Answers(table, q, b, CASBIN)
    ensures a.Some? <==> b.Some?
    ensures a.Some? ==> QueryOf(a.value) == QueryOf(b.value) == q && a.value.policyVersion == b.value.policyVersion
  {
    if a.Some? {
      var r :| r in table && Newest(table, q, r) && a.value == FromRule(r, PROJECTED);
    }
    if b.Some? {
      var s :| s in table && Newest(table, q, s) && b.value == FromRule(s, CASBIN);
    }
  }

  // ----- the cached backend -----

  /** A lookup through the cache; `answer` is what the backend finds if it is asked. */
  function CachedFind(entries: Entries, answer: Option<PolicyMatch>, q: Query, ttlSeconds: int, now: int)
    : (Entries, Result<Option<PolicyMatch>>)
  {
    var (e0, cached) := GetAllowing(entries, q, now);
    if cached.Err? || cached.value.Some? then (e0, cached)
    else if answer.None? then (e0, Ok(None))
    else
      var (e1, stored) := SetAllowing(e0, answer.value, ttlSeconds, now);
      (e1, if stored.Err? then Err(stored.error) else Ok(answer))
  }

  // ----- the projector -----

  /** Bumps the counters of the first n parties, up to the first one that is refused. */
  function BumpFirst(entries: Entries, order: seq<Party>, n: nat, now: int): (Entries, Option<AppError>)
    requires n <= |order|
  {
    if n == 0 then (entries, None)
    else
      var (before, error) := BumpFirst(entries, order, n - 1, now);
      if error.Some? then (before, error)
      else
        var (after, version) := Invalidated(before, Some(order[n - 1].tenantId), Some(order[n - 1].subject), now);
        (after, if version.Err? then Some(version.error) else None)
  }

  /** Without any party the global counter is bumped. */
  function InvalidatedParties(entries: Entries, order: seq<Party>, now: int): (Entries, Option<AppError>) {
    if order == [] then
      var (after, version) := Invalidated(entries, None, None, now);
      (after, if version.Err? then Some(version.error) else None)
    else BumpFirst(entries, order, |order|, now)
  }

  /** The list holds exactly these parties. */
  predicate Lists(order: seq<Party>, parties: set<Party>) {
    (set p | p in order) == parties
  }

  /** The table, the cache and the outcome of a projector call. The table is rolled back when the call raises; the
      counters that it had already bumped stay. */
  datatype Done<+T> = Done(table: set<PolicyRule>, entries: Entries, outcome: Result<T>)

  function ProjectGrant(table: set<PolicyRule>, entries: Entries, grant: RoleGrant, template: RoleTemplate,
                        registry: Registry, now: int)
    : Done<seq<PolicyRule>>
  {
    var rules := RulesForGrant(grant, template, registry);
    if rules.Err? then Done(table, entries, rules)
    else
      var (after, version) := Invalidated(entries, Some(grant.tenantId), Some(GrantParty(grant).subject), now);
      if version.Err? then Done(table, after, Err(version.error))
      else if !DistinctRuleKeys(rules.value) then Done(table, after, Err(IntegrityError))
      else Done(Without(table, grant.id) + RuleSet(rules.value), after, rules)
  }

  function PartiesOf(rules: set<PolicyRule>): set<Party> {
    set r | r in rules :: PartyOf(r)
  }

  /** The parties that a removal invalidates: those of the removed rows, and the one the caller names. */
  function RemovedParties(table: set<PolicyRule>, grantId: string, tenantId: Option<string>,
                          subject: Option<string>): set<Party> {
    ProjectedParties(table, grantId) + if tenantId.Some? && subject.Some? then {Party(tenantId.value, subject.value)} else {}
  }

  /** `order` lists the parties to invalidate. */
  function RemoveProjection(table: set<PolicyRule>, entries: Entries, grantId: string, order: seq<Party>,
                            now: int): Done<()> {
    var (after, error) := InvalidatedParties(entries, order, now);
    if error.Some? then Done(table, after, Err(error.value)) else Done(Without(table, grantId), after, Ok(()))
  }

  function ReconcileParties(expected: set<PolicyRule>, table: set<PolicyRule>): set<Party> {
    PartiesOf(Missing(expected, table) + Stale(expected, table))
  }

  function Reconcile(table: set<PolicyRule>, entries: Entries, grants: seq<RoleGrant>, templates: map<string,
                     RoleTemplate>,
                     registry: Registry, repair: bool, order: seq<Party>, now: int): Done<Reconciliation>
  {
    var rules := ExpectedFirst(grants, templates, registry, |grants|);
    if rules.Err? then Done(table, entries, Err(rules.error))
    else
      var expected := RuleSet(rules.value);
      var missing, stale := Missing(expected, table), Stale(expected, table);
      if !repair || (missing == {} && stale == {}) then Done(table, entries, Ok(Reconciliation(false, missing, stale)))
      else
        var (after, error) := InvalidatedParties(entries, order, now);
        if error.Some? then Done(table, after, Err(error.value))
        else Done(Repaired(expected, table), after, Ok(Reconciliation(true, {}, {})))
  }

  // ----- what the calls come to -----

  /** What an answer names is an allow row of the table for the query, the newest there is. */
  lemma AnswerNamesRow(table: set<PolicyRule>, q: Query, m: PolicyMatch, reason: string)
    requires Answers(table, q, Some(m), reason)
    ensures QueryOf(m) == q && m.effect == "allow" && m.reason == reason
    ensures exists rule | rule in table ::
              && rule.tenantId == q.tenantId && rule.subject == q.subject && rule.resource == q.resource && rule.action == q.action
              && rule.effect == "allow" && rule.roleGrantId == m.roleGrantId && rule.policyVersion == m.policyVersion
              && forall other | other in table && Allows(other, q) :: other.policyVersion <= m.policyVersion
  {
    var rule :| rule in table && Newest(table, q, rule) && m == FromRule(rule, reason);
  }

  /** A projection that goes through leaves exactly the other grants' rows and one allow row for each permission that the
      template lists, under the grant's tenant, subject and version. One that raises leaves the table alone. */
  lemma ProjectExact(table: set<PolicyRule>, entries: Entries, grant: RoleGrant, template: RoleTemplate,
                     registry: Registry,
                     now: int, rule: PolicyRule)
    ensures var done := ProjectGrant(table, entries, grant, template, registry, now);
            if done.outcome.Ok? then
              && (rule in done.table <==> if rule.roleGrantId == grant.id then TemplateGives(grant, template, rule) else rule in table)
              && (rule in done.outcome.value <==> TemplateGives(grant, template, rule))
              && (UniqueKeys(table) ==> UniqueKeys(done.table))
            else done.table == table
  {
    hide Invalidated;
    var done := ProjectGrant(table, entries, grant, template, registry, now);
    if done.outcome.Ok? {
      ErrIffUnregistered(grant, template, registry);
      RulesAreGiven(grant, template, registry, rule);
      var rules := RulesForGrant(grant, template, registry).value;
      assert forall r | r in rules :: r.roleGrantId == grant.id;
      forall a, b | a in rules && b in rules && KeyOf(a) == KeyOf(b)
        ensures a == b
      {
      }
    }
  }

  /** It goes through exactly when the permissions are registered and listed once and the party's counter can be moved. */
  lemma ProjectOkIff(table: set<PolicyRule>, entries: Entries, grant: RoleGrant, template: RoleTemplate,
                     registry: Registry,
                     now: int)
    ensures ProjectGrant(table, entries, grant, template, registry, now).outcome.Ok? <==>
            && (registry.Some? ==> forall p | p in template.permissions :: (p, template.scope) in registry.value)
            && DistinctPermissions(template)
            && Invalidated(entries, Some(grant.tenantId), Some(grant.subjectType + ":" + grant.subjectId), now).1.Ok?
  {
    hide Invalidated, DistinctPermissions, DistinctRuleKeys;
    ErrIffUnregistered(grant, template, registry);
    if Registered(template, registry) {
      RulesDistinctIff(grant, template, registry);
    }
  }

  /** After a projection the grant's rows allow its own party exactly what the template lists, and nobody else. */
  lemma ProjectionAllows(table: set<PolicyRule>, entries: Entries, grant: RoleGrant, template: RoleTemplate,
                         registry: Registry,
                         now: int, q: Query)
    requires ProjectGrant(table, entries, grant, template, registry, now).outcome.Ok?
    ensures (exists rule | rule in ProjectGrant(table, entries, grant, template, registry, now).table ::
               rule.roleGrantId == grant.id && Allows(rule, q))
            <==> && q.tenantId == grant.tenantId && q.subject == grant.subjectType + ":" + grant.subjectId
                 && exists p | p in template.permissions :: p.resource == q.resource && p.action == q.action
  {
    hide ProjectGrant, Invalidated;
    var after := ProjectGrant(table, entries, grant, template, registry, now).table;
    if rule :| rule in after && rule.roleGrantId == grant.id && Allows(rule, q) {
      ProjectExact(table, entries, grant, template, registry, now, rule);
    }
    var allowed := PolicyRule(q.tenantId, q.subject, q.resource, q.action, grant.id, grant.policyVersion, "allow");
    ProjectExact(table, entries, grant, template, registry, now, allowed);
    assert Allows(allowed, q);
  }

  /** Projecting the first n grants in turn, each if its template exists, from this table on. */
  function ProjectEach(table: set<PolicyRule>, entries: Entries, grants: seq<RoleGrant>, templates: map<string,
                       RoleTemplate>,
                       registry: Registry, n: nat, now: int): Done<()>
    requires n <= |grants|
  {
    if n == 0 then Done(table, entries, Ok(()))
    else
      var before := ProjectEach(table, entries, grants, templates, registry, n - 1, now);
      var grant := grants[n - 1];
      if before.outcome.Err? then before
      else if grant.roleTemplateId !in templates then before.(outcome := Err(NotFound))
      else
        var done := ProjectGrant(before.table, before.entries, grant, templates[grant.roleTemplateId], registry, now);
        Done(done.table, done.entries, if done.outcome.Err? then Err(done.outcome.error) else Ok(()))
  }

  /** Projecting every grant from an empty table is the rebuild: the table holds exactly the rules the grants stand for. */
  lemma {:induction false} ProjectEachRebuilds(entries: Entries, grants: seq<RoleGrant>, templates: map<string,
                                               RoleTemplate>,
                                               registry: Registry, n: nat, now: int, rule: PolicyRule)
    requires n <= |grants| && DistinctIds(grants)
    requires ProjectEach({}, entries, grants, templates, registry, n, now).outcome.Ok?
    ensures rule in ProjectEach({}, entries, grants, templates, registry, n, now).table <==> StandsFor(grants, templates, n, rule)
  {
    hide ProjectGrant, TemplateGives;
    if n > 0 {
      var grant := grants[n - 1];
      var before := ProjectEach({}, entries, grants, templates, registry, n - 1, now);
      ProjectEachRebuilds(entries, grants, templates, registry, n - 1, now, rule);
      ProjectExact(before.table, before.entries, grant, templates[grant.roleTemplateId], registry, now, rule);
      GivenByItsGrant(grants, templates, n, rule);
    }
  }

  /** A rule is given by the grant that it names, or by none. */
  lemma GivenByItsGrant(grants: seq<RoleGrant>, templates: map<string, RoleTemplate>, n: nat, rule: PolicyRule)
    requires 0 < n <= |grants| && DistinctIds(grants)
    ensures StandsFor(grants, templates, n, rule) <==>
            if rule.roleGrantId == grants[n - 1].id then GrantGives(grants[n - 1], templates, rule)
            else StandsFor(grants, templates, n - 1, rule)
  {
    if StandsFor(grants, templates, n, rule) {
      var i :| 0 <= i < n && GrantGives(grants[i], templates, rule);
    }
    if StandsFor(grants, templates, n - 1, rule) {
      var i :| 0 <= i < n - 1 && GrantGives(grants[i], templates, rule);
    }
    assert GrantGives(grants[n - 1], templates, rule) ==> StandsFor(grants, templates, n, rule);
  }

  /** A removal that goes through takes exactly the grant's rows away. */
  lemma RemoveExact(table: set<PolicyRule>, entries: Entries, grantId: string, order: seq<Party>, now: int,
                    rule: PolicyRule)
    ensures var done := RemoveProjection(table, entries, grantId, order, now);
            rule in done.table <==> rule in table && (done.outcome.Ok? ==> rule.roleGrantId != grantId)
  {
  }

  /** The table differs from what the grants stand for. */
  ghost predicate Differs(grants: seq<RoleGrant>, templates: map<string, RoleTemplate>, table: set<PolicyRule>) {
    exists rule: PolicyRule :: (rule in table) != StandsFor(grants, templates, |grants|, rule)
  }

  /** The table holds exactly what the grants stand for. */
  ghost predicate HoldsExpected(grants: seq<RoleGrant>, templates: map<string, RoleTemplate>, table: set<PolicyRule>) {
    forall rule: PolicyRule :: rule in table <==> StandsFor(grants, templates, |grants|, rule)
  }

  /** The report names exactly the expected rules that no row holds and the rows that are no expected rule. */
  ghost predicate Reports(grants: seq<RoleGrant>, templates: map<string, RoleTemplate>, table: set<PolicyRule>,
                          r: Reconciliation) {
    && (forall rule: PolicyRule :: rule in r.missing <==> StandsFor(grants, templates, |grants|, rule) && rule !in table)
    && (forall rule: PolicyRule :: rule in r.stale <==> rule in table && !StandsFor(grants, templates, |grants|, rule))
  }

  /** A removal concerns the parties of the rows it takes away and, given in full, the one that the caller names. */
  lemma RemovedPartiesExact(table: set<PolicyRule>, grantId: string, tenantId: Option<string>, subject: Option<string>,
                            p: Party)
    ensures p in RemovedParties(table, grantId, tenantId, subject) <==>
            || (exists rule | rule in table :: rule.roleGrantId == grantId && rule.tenantId == p.tenantId && rule.subject == p.subject)
            || (tenantId == Some(p.tenantId) && subject == Some(p.subject))
  {
    if rule :| rule in table && rule.roleGrantId == grantId && rule.tenantId == p.tenantId && rule.subject == p.subject {
      assert PartyOf(rule) == p;
    }
  }

  /** Without a party to invalidate the global counter moves by one; when it holds no number, the removal raises. */
  lemma RemovalOfNothingMovesGlobal(table: set<PolicyRule>, entries: Entries, grantId: string, now: int)
    ensures var done := RemoveProjection(table, entries, grantId, [], now);
            var before := Lookup(entries, Key(GlobalVersion), now);
            && (done.outcome == Err(Conflict) <==> before.Some? && before.value.Document?)
            && (done.outcome.Ok? <==> before.None? || before.value.Number?)
            && (done.outcome.Ok? ==>
                  Lookup(done.entries, Key(GlobalVersion), now) == Some(Number((if before.None? then 0 else before.value.n) + 1)))
  {
    hide Key;
  }

  /** With repair a reconciliation that goes through leaves exactly the expected rules, under unique keys, and one more
      finds nothing; it says that it repaired exactly when something differed. Without repair the table and the cache
      stay as they are, and the report is exactly what differs. One that raises leaves the table alone. */
  lemma ReconcileExact(table: set<PolicyRule>, entries: Entries, grants: seq<RoleGrant>, templates: map<string,
                       RoleTemplate>,
                       registry: Registry, repair: bool, order: seq<Party>, now: int)
    requires DistinctIds(grants)
    ensures var done := Reconcile(table, entries, grants, templates, registry, repair, order, now);
            && (done.outcome.Err? ==> done.table == table)
            && (done.outcome.Ok? && repair ==>
                  && HoldsExpected(grants, templates, done.table) && UniqueKeys(done.table)
                  && done.outcome == Ok(Reconciliation(Differs(grants, templates, table), {}, {}))
                  && Reconcile(done.table, done.entries, grants, templates, registry, false, order, now).outcome == Ok(Reconciliation(false, {}, {})))
            && (done.outcome.Ok? && !repair ==>
                  done.table == table && done.entries == entries && !done.outcome.value.repaired
                  && Reports(grants, templates, table, done.outcome.value))
            && (done.outcome.Ok? && done.table != table ==> done.outcome.value.repaired)
  {
    hide InvalidatedParties, RulesForGrant, StandsFor;
    if ExpectedFirst(grants, templates, registry, |grants|).Ok? {
      var expected := RuleSet(ExpectedFirst(grants, templates, registry, |grants|).value);
      forall rule: PolicyRule
        ensures rule in expected <==> StandsFor(grants, templates, |grants|, rule)
      {
        ExpectedExact(grants, templates, registry, |grants|, rule);
      }
      RepairReachesExpected(grants, templates, registry, table);
      DifferenceIff(grants, templates, expected, table);
    }
  }

  lemma DifferenceIff(grants: seq<RoleGrant>, templates: map<string, RoleTemplate>, expected: set<PolicyRule>,
                      table: set<PolicyRule>)
    requires forall rule: PolicyRule :: rule in expected <==> StandsFor(grants, templates, |grants|, rule)
    ensures Differs(grants, templates, table) <==> Missing(expected, table) != {} || Stale(expected, table) != {}
    ensures Missing(expected, table) == {} && Stale(expected, table) == {} ==> table == expected
  {
    hide StandsFor;
    if Differs(grants, templates, table) {
      var rule :| (rule in table) != StandsFor(grants, templates, |grants|, rule);
      assert rule in Missing(expected, table) || rule in Stale(expected, table);
    }
    if rule :| rule in Missing(expected, table) {
      assert (rule in table) != StandsFor(grants, templates, |grants|, rule);
    }
    if rule :| rule in Stale(expected, table) {
      assert (rule in table) != StandsFor(grants, templates, |grants|, rule);
    }
  }

  // ----- the objects -----

  class DistributedPermissionCache {
    const provider: MemoryCacheProvider<Json>
    const ttlSeconds: int

    constructor (provider: MemoryCacheProvider<Json>, ttlSeconds: int)
      ensures this.provider == provider && this.ttlSeconds == ttlSeconds
    {
      this.provider, this.ttlSeconds := provider, ttlSeconds;
    }

    /** A cache whose entries would not live is refused. */
    static method Create(provider: MemoryCacheProvider<Json>,
                         ttlSeconds: int) returns (cache: Result<DistributedPermissionCache>)
      ensures cache.Ok? <==> ttlSeconds > 0
      ensures cache.Ok? ==> cache.value.provider == provider && cache.value.ttlSeconds == ttlSeconds
      ensures cache.Err? ==> cache.error == ValidationError
    {
      if ttlSeconds <= 0 {
        return Err(ValidationError);
      }
      var c := new DistributedPermissionCache(provider, ttlSeconds);
      cache := Ok(c);
    }

    method Version(name: Name, now: int) returns (version: Result<int>)
      modifies provider
      ensures (provider.entries, version) == ReadVersion(old(provider.entries), name, now)
    {
      hide Key;
      if !Spellable(name) {
        return Err(ValidationError);
      }
      KeyIsCacheKey(name);
      var found := provider.Get(Key(name), now);
      match found.value {
        case None => version := Ok(0);
        case Some(Number(n)) => version := Ok(n);
        case Some(Document(_)) => version := Err(Conflict);
      }
    }

    method VersionMarker(party: Party, now: int) returns (marker: Result<Marker>)
      modifies provider
      ensures (provider.entries, marker) == ReadMarker(old(provider.entries), party, now)
    {
      hide ReadVersion;
      var global := Version(GlobalVersion, now);
      if global.Err? {
        return Err(global.error);
      }
      var tenant := Version(TenantVersion(party.tenantId), now);
      if tenant.Err? {
        return Err(tenant.error);
      }
      var subject := Version(SubjectVersion(party), now);
      if subject.Err? {
        return Err(subject.error);
      }
      marker := Ok(Marker(global.value, tenant.value, subject.value));
    }

    method Invalidate(tenantId: Option<string>, subject: Option<string>, now: int) returns (version: Result<int>)
      modifies provider
      ensures (provider.entries, version) == Invalidated(old(provider.entries), tenantId, subject, now)
    {
      hide Key, Incremented;
      var name := InvalidationName(tenantId, subject);
      if name.Err? {
        return Err(name.error);
      }
      KeyIsCacheKey(name.value);
      version := provider.Incr(Key(name.value), 1, None, true, now);
    }

    method GetAllowingMatch(q: Query, now: int) returns (m: Result<Option<PolicyMatch>>)
      modifies provider
      ensures (provider.entries, m) == GetAllowing(old(provider.entries), q, now)
    {
      hide Key, ReadMarker, MatchAt;
      if !Spellable(Decision(q)) {
        return Err(ValidationError);
      }
      KeyIsCacheKey(Decision(q));
      var cached := provider.Get(Key(Decision(q)), now);
      var fields := CachedFields(cached.value);
      if fields.None? {
        return Ok(None);
      }
      var marker := VersionMarker(QueryParty(q), now);
      if marker.Err? {
        return Err(marker.error);
      }
      m := Ok(MatchAt(fields.value, marker.value));
    }

    method SetAllowingMatch(m: PolicyMatch, now: int) returns (stored: Result<()>)
      modifies provider
      ensures (provider.entries, stored) == SetAllowing(old(provider.entries), m, ttlSeconds, now)
    {
      hide Key, ReadMarker, CachedJson, Spellable, Seconds, Blank, QueryOf;
      var q := QueryOf(m);
      var marker := VersionMarker(QueryParty(q), now);
      if marker.Err? {
        return Err(marker.error);
      }
      if !Spellable(Decision(q)) {
        return Err(ValidationError);
      }
      stored := Store(Decision(q), CachedJson(marker.value, m), now);
    }

    /** Stores a document for the cache's time to live. */
    method Store(name: Name, document: Json, now: int) returns (stored: Result<()>)
      modifies provider
      ensures if ttlSeconds <= 0 then provider.entries == old(provider.entries) && stored == Err(ValidationError)
              else provider.entries == old(provider.entries)[Key(name) := Entry(Document(document), Some(now + Seconds(ttlSeconds)))]
                   && stored == Ok(())
    {
      hide Key, Seconds, Blank;
      KeyIsCacheKey(name);
      stored := provider.Set(Key(name), Document(document), Some(ttlSeconds), false, now);
    }
  }

  class ProjectedPolicyTable {
    var policies: set<PolicyRule>

    constructor ()
      ensures policies == {}
    {
      policies := {};
    }
  }

  class ProjectedPolicyBackend {
    const session: ProjectedPolicyTable

    constructor (session: ProjectedPolicyTable)
      ensures this.session == session
    {
      this.session := session;
    }

    /** The newest of the rows that allow the query. */
    method FindAllowingPolicy(q: Query) returns (m: Option<PolicyMatch>)
      ensures Answers(session.policies, q, m, PROJECTED)
    {
      var best: Option<PolicyRule> := None;
      var rows := session.policies;
      while rows != {}
        invariant rows <= session.policies
        invariant best.Some? ==> best.value in session.policies && Allows(best.value, q)
        invariant forall r | r in session.policies - rows && Allows(r, q) :: best.Some? && r.policyVersion <= best.value.policyVersion
        decreases |rows|
      {
        var row :| row in rows;
        rows := rows - {row};
        if Allows(row, q) && (best.None? || best.value.policyVersion < row.policyVersion) {
          best := Some(row);
        }
      }
      if best.None? {
        return None;
      }
      assert Newest(session.policies, q, best.value);
      m := Some(FromRule(best.value, PROJECTED));
    }
  }

  class CasbinEquivalentPolicyBackend {
    const rules: seq<PolicyRule>

    constructor (rules: seq<PolicyRule>)
      ensures this.rules == rules
    {
      this.rules := rules;
    }

    /** The first of the newest rules that allow the query. */
    method FindAllowingPolicy(q: Query) returns (m: Option<PolicyMatch>)
      ensures Answers(RuleSet(rules), q, m, CASBIN)
      ensures m.Some? ==> exists i | 0 <= i < |rules| ::
                && m.value == FromRule(rules[i], CASBIN) && Newest(RuleSet(rules), q, rules[i])
                && forall j | 0 <= j < i && Allows(rules[j], q) :: rules[j].policyVersion < rules[i].policyVersion
    {
      var best := -1;
      for n := 0 to |rules|
        invariant -1 <= best < n
        invariant best >= 0 ==> Allows(rules[best], q)
        invariant forall j | 0 <= j < n && Allows(rules[j], q) ::
          best >= 0 && rules[j].policyVersion <= rules[best].policyVersion && (j < best ==> rules[j].policyVersion < rules[best].policyVersion)
      {
        if Allows(rules[n], q) && (best < 0 || rules[best].policyVersion < rules[n].policyVersion) {
          best := n;
        }
      }
      if best < 0 {
        return None;
      }
      assert rules[best] in RuleSet(rules) && Newest(RuleSet(rules), q, rules[best]);
      m := Some(FromRule(rules[best], CASBIN));
    }
  }

  class CachedPolicyDecisionBackend {
    const backend: ProjectedPolicyBackend
    const cache: DistributedPermissionCache

    constructor (backend: ProjectedPolicyBackend, cache: DistributedPermissionCache)
      ensures this.backend == backend && this.cache == cache
    {
      this.backend, this.cache := backend, cache;
    }

    /** `answer` is what the backend finds when the cache has nothing. */
    method FindAllowingPolicy(q: Query, now: int) returns (m: Result<Option<PolicyMatch>>,
                              ghost answer: Option<PolicyMatch>)
      modifies cache.provider
      ensures GetAllowing(old(cache.provider.entries), q, now).1 == Ok(None) ==> Answers(backend.session.policies, q, answer, PROJECTED)
      ensures (cache.provider.entries, m) == CachedFind(old(cache.provider.entries), answer, q, cache.ttlSeconds, now)
    {
      hide GetAllowing, SetAllowing, Answers;
      answer := None;
      var cached := cache.GetAllowingMatch(q, now);
      if cached.Err? || cached.value.Some? {
        return cached, answer;
      }
      var found := backend.FindAllowingPolicy(q);
      answer := found;
      if found.Some? {
        var stored := cache.SetAllowingMatch(found.value, now);
        if stored.Err? {
          return Err(stored.error), answer;
        }
      }
      m := Ok(found);
    }
  }

  class PolicyProjector {
    const session: ProjectedPolicyTable
    const cache: DistributedPermissionCache
    const registry: Registry

    constructor (session: ProjectedPolicyTable, cache: DistributedPermissionCache, registry: Registry)
      ensures this.session == session && this.cache == cache && this.registry == registry
    {
      this.session, this.cache, this.registry := session, cache, registry;
    }

    method Project(grant: RoleGrant, template: RoleTemplate, now: int) returns (rules: Result<seq<PolicyRule>>)
      modifies session, cache.provider
      ensures Done(session.policies, cache.provider.entries, rules) ==
              ProjectGrant(old(session.policies), old(cache.provider.entries), grant, template, registry, now)
      ensures rules.Ok? ==> forall rule: PolicyRule ::
                rule in session.policies <==>
                if rule.roleGrantId == grant.id then TemplateGives(grant, template, rule) else rule in old(session.policies)
      ensures rules.Err? ==> session.policies == old(session.policies)
    {
      hide Invalidated, RulesForGrant, TemplateGives;
      forall rule: PolicyRule {
        ProjectExact(session.policies, cache.provider.entries, grant, template, registry, now, rule);
      }
      rules := RulesForGrant(grant, template, registry);
      if rules.Err? {
        return;
      }
      var version := cache.Invalidate(Some(grant.tenantId), Some(GrantParty(grant).subject), now);
      if version.Err? {
        return Err(version.error);
      }
      if !DistinctRuleKeys(rules.value) {
        return Err(IntegrityError);
      }
      session.policies := Without(session.policies, grant.id) + RuleSet(rules.value);
    }

    /** Invalidates each party in some order. */
    method InvalidateSubjects(parties: set<Party>, now: int) returns (error: Option<AppError>, ghost order: seq<Party>)
      modifies cache.provider
      ensures Lists(order, parties)
      ensures (cache.provider.entries, error) == InvalidatedParties(old(cache.provider.entries), order, now)
    {
      hide Invalidated;
      if parties == {} {
        var version := cache.Invalidate(None, None, now);
        return if version.Err? then Some(version.error) else None, [];
      }
      var listed := Listed(parties);
      order := listed;
      ghost var start := cache.provider.entries;
      for n := 0 to |listed|
        invariant BumpFirst(start, listed, n, now) == (cache.provider.entries, None)
      {
        var version := cache.Invalidate(Some(listed[n].tenantId), Some(listed[n].subject), now);
        if version.Err? {
          BumpSticks(start, listed, n + 1, |listed|, now);
          return Some(version.error), order;
        }
      }
      error := None;
    }

    method Remove(grantId: string, tenantId: Option<string>, subject: Option<string>, now: int)
      returns (outcome: Result<()>, ghost order: seq<Party>)
      modifies session, cache.provider
      ensures Lists(order, RemovedParties(old(session.policies), grantId, tenantId, subject))
      ensures Done(session.policies, cache.provider.entries, outcome) ==
              RemoveProjection(old(session.policies), old(cache.provider.entries), grantId, order, now)
      ensures forall rule: PolicyRule ::
                rule in session.policies <==> rule in old(session.policies) && (outcome.Ok? ==> rule.roleGrantId != grantId)
    {
      hide InvalidatedParties, Lists;
      var parties := RemovedParties(session.policies, grantId, tenantId, subject);
      var error;
      error, order := InvalidateSubjects(parties, now);
      if error.Some? {
        return Err(error.value), order;
      }
      session.policies := Without(session.policies, grantId);
      outcome := Ok(());
    }

    /** `stored` is the table as the query lists it. */
    method ReconcileAll(grants: seq<RoleGrant>, templates: map<string, RoleTemplate>, stored: seq<PolicyRule>,
                        repair: bool, now: int)
      returns (outcome: Result<Reconciliation>, ghost order: seq<Party>)
      requires DistinctIds(grants) && UniqueKeys(session.policies) && RuleSet(stored) == session.policies
      modifies session, cache.provider
      ensures Done(session.policies, cache.provider.entries, outcome) ==
              Reconcile(old(session.policies), old(cache.provider.entries), grants, templates, registry, repair, order, now)
      ensures outcome.Ok? && outcome.value.repaired ==>
                var expected := RuleSet(ExpectedFirst(grants, templates, registry, |grants|).value);
                Lists(order, ReconcileParties(expected, old(session.policies)))
      ensures outcome.Ok? && repair ==>
                && HoldsExpected(grants, templates, session.policies)
                && outcome == Ok(Reconciliation(Differs(grants, templates, old(session.policies)), {}, {}))
      ensures outcome.Ok? && !repair ==>
                && session.policies == old(session.policies) && cache.provider.entries == old(cache.provider.entries)
                && !outcome.value.repaired && Reports(grants, templates, old(session.policies), outcome.value)
    {
      hide InvalidatedParties, Lists, RulesForGrant, UniqueKeys, HoldsExpected, Differs, Reports;
      forall order: seq<Party> {
        ReconcileExact(session.policies, cache.provider.entries, grants, templates, registry, repair, order, now);
      }
      order := [];
      var expected := [];
      for n := 0 to |grants|
        invariant ExpectedFirst(grants, templates, registry, n) == Ok(expected)
      {
        if grants[n].roleTemplateId in templates {
          var rules := RulesForGrant(grants[n], templates[grants[n].roleTemplateId], registry);
          if rules.Err? {
            ExpectedSticks(grants, templates, registry, n + 1, |grants|);
            return Err(rules.error), order;
          }
          expected := expected + rules.value;
        }
      }
      ExpectedUnique(grants, templates, registry);
      var missing, stale := Compare(expected, stored);
      if !repair || (RuleSet(missing) == {} && RuleSet(stale) == {}) {
        return Ok(Reconciliation(false, RuleSet(missing), RuleSet(stale))), order;
      }
      var error;
      error, order := InvalidateSubjects(PartiesOf(RuleSet(missing) + RuleSet(stale)), now);
      if error.Some? {
        return Err(error.value), order;
      }
      session.policies := (session.policies - RuleSet(stale)) + RuleSet(missing);
      outcome := Ok(Reconciliation(true, {}, {}));
    }
  }

  method Listed(parties: set<Party>) returns (order: seq<Party>)
    ensures Lists(order, parties)
  {
    order := [];
    var rest := parties;
    while rest != {}
      invariant rest <= parties && (set p | p in order) == parties - rest
      decreases |rest|
    {
      var p :| p in rest;
      ghost var before := set x | x in order;
      rest, order := rest - {p}, order + [p];
      assert (set x | x in order) == before + {p};
    }
  }

  lemma {:induction false} BumpSticks(entries: Entries, order: seq<Party>, k: nat, n: nat, now: int)
    requires k <= n <= |order| && BumpFirst(entries, order, k, now).1.Some?
    ensures BumpFirst(entries, order, n, now) == BumpFirst(entries, order, k, now)
  {
    hide Invalidated;
    if k < n {
      BumpSticks(entries, order, k, n - 1, now);
    }
  }

  lemma {:induction false} ExpectedSticks(grants: seq<RoleGrant>, templates: map<string, RoleTemplate>,
                                          registry: Registry, k: nat, n: nat)
    requires k <= n <= |grants| && ExpectedFirst(grants, templates, registry, k).Err?
    ensures ExpectedFirst(grants, templates, registry, n) == ExpectedFirst(grants, templates, registry, k)
  {
    hide RulesForGrant;
    if k < n {
      ExpectedSticks(grants, templates, registry, k, n - 1);
    }
  }
}
