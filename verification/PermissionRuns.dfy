/** Histories of projections, removals, repairs and cached lookups: what the cache answers is what the table says. */
module PermissionRuns {
  import opened Common
  import opened MemoryCache
  import opened PermissionCache
  import opened Permissions
  import opened Policies

  // ----- what the cache holds -----

  predicate AtMost(a: Marker, b: Marker) {
    a.global <= b.global && a.tenant <= b.tenant && a.subject <= b.subject
  }

  /** A cached match for the query: stamped no later than now, and right if its stamp is still the current one. */
  predicate Stamped(table: set<PolicyRule>, entries: Entries, q: Query, marker: Marker, m: PolicyMatch) {
    var key := Key(Decision(q));
    && key in entries && entries[key].value == Document(CachedJson(marker, m))
    && QueryOf(m) == q
    && AtMost(marker, MarkerFor(entries, QueryParty(q)))
    && (marker == MarkerFor(entries, QueryParty(q)) ==> Matched(table, q, m, PROJECTED))
  }

  ghost predicate DecisionSound(table: set<PolicyRule>, entries: Entries, q: Query) {
    Spellable(Decision(q)) && Key(Decision(q)) in entries ==> exists marker: Marker, m: PolicyMatch :: Stamped(table, entries, q, marker, m)
  }

  ghost predicate Sound(table: set<PolicyRule>, entries: Entries) {
    && UniqueKeys(table) && VersionsSound(entries)
    && forall q: Query :: DecisionSound(table, entries, q)
  }

  // ----- lookups -----

  predicate Correct(table: set<PolicyRule>, q: Query, reply: Result<Option<PolicyMatch>>) {
    if Spellable(Decision(q)) then reply.Ok? && Answers(table, q, reply.value, PROJECTED) else reply == Err(ValidationError)
  }

  lemma PurgeKeepsSound(table: set<PolicyRule>, entries: Entries, q: Query, now: int)
    requires Sound(table, entries)
    ensures var after := Purge(entries, Key(Decision(q)), now);
            Sound(table, after) && forall party: Party :: MarkerFor(after, party) == MarkerFor(entries, party)
  {
    hide Key, UniqueKeys, Matched, CachedJson;
    var after := Purge(entries, Key(Decision(q)), now);
    forall name: Name | !name.Decision?
      ensures Key(name) != Key(Decision(q))
    {
      if Key(name) == Key(Decision(q)) {
        KeysNeverCollide(name, Decision(q));
      }
    }
    forall other: Query
      ensures DecisionSound(table, after, other)
    {
      assert DecisionSound(table, entries, other);
      if Spellable(Decision(other)) && Key(Decision(other)) in after {
        var marker, m :| Stamped(table, entries, other, marker, m);
        assert Stamped(table, after, other, marker, m);
      }
    }
  }

  /** What the cache gives back is right, or nothing. */
  lemma GetIsSound(table: set<PolicyRule>, entries: Entries, q: Query, now: int)
    requires Sound(table, entries)
    ensures var (after, reply) := GetAllowing(entries, q, now);
            && Sound(table, after)
            && (Spellable(Decision(q)) ==> reply.Ok? && (reply.value.Some? ==> Matched(table, q, reply.value.value, PROJECTED)))
            && (!Spellable(Decision(q)) ==> reply == Err(ValidationError))
  {
    hide Key, Matched, UniqueKeys, MarkerFor, ReadMarker;
    if Spellable(Decision(q)) {
      PurgeKeepsSound(table, entries, q, now);
      MarkerIsRead(Purge(entries, Key(Decision(q)), now), QueryParty(q), now);
      if Lookup(entries, Key(Decision(q)), now).Some? {
        assert DecisionSound(table, entries, q);
        var marker, m :| Stamped(table, entries, q, marker, m);
        MatchAtStamp(marker, m, MarkerFor(entries, QueryParty(q)));
      }
    }
  }

  /** Writing a right match, stamped with the current marker, keeps the cache sound. */
  lemma SetIsSound(table: set<PolicyRule>, entries: Entries, m: PolicyMatch, ttlSeconds: int, now: int)
    requires Sound(table, entries) && Matched(table, QueryOf(m), m, PROJECTED) && ttlSeconds > 0
    requires Spellable(Decision(QueryOf(m)))
    ensures var (after, stored) := SetAllowing(entries, m, ttlSeconds, now); stored == Ok(()) && Sound(table, after)
  {
    hide Key, Matched, UniqueKeys, CachedJson, ReadMarker;
    var q := QueryOf(m);
    MarkerIsRead(entries, QueryParty(q), now);
    var after := SetAllowing(entries, m, ttlSeconds, now).0;
    var marker := MarkerFor(entries, QueryParty(q));
    forall name: Name
      ensures Key(name) == Key(Decision(q)) ==> name == Decision(q)
    {
      if Key(name) == Key(Decision(q)) {
        KeysNeverCollide(name, Decision(q));
      }
    }
    forall other: Query
      ensures DecisionSound(table, after, other)
    {
      if other == q {
        assert Stamped(table, after, q, marker, m);
      } else {
        assert DecisionSound(table, entries, other);
        if Spellable(Decision(other)) && Key(Decision(other)) in after {
          var stamp, cached :| Stamped(table, entries, other, stamp, cached);
          assert Stamped(table, after, other, stamp, cached);
        }
      }
    }
  }

  lemma FindIsSound(table: set<PolicyRule>, entries: Entries, answer: Option<PolicyMatch>, q: Query, ttlSeconds: int,
                    now: int)
    requires Sound(table, entries) && ttlSeconds > 0
    requires GetAllowing(entries, q, now).1 == Ok(None) ==> Answers(table, q, answer, PROJECTED)
    ensures var (after, reply) := CachedFind(entries, answer, q, ttlSeconds, now);
            Sound(table, after) && Correct(table, q, reply)
  {
    hide Sound, GetAllowing, SetAllowing, Spellable, Matched;
    GetIsSound(table, entries, q, now);
    var (e0, cached) := GetAllowing(entries, q, now);
    if cached == Ok(None) && answer.Some? {
      MatchIsForQuery(table, q, answer.value);
      SetIsSound(table, e0, answer.value, ttlSeconds, now);
    }
  }

  lemma MatchIsForQuery(table: set<PolicyRule>, q: Query, m: PolicyMatch)
    requires Matched(table, q, m, PROJECTED)
    ensures QueryOf(m) == q
  {
  }

  // ----- changes -----

  /** Every answer for the party that was right stays right. */
  ghost predicate AnswersStay(before: set<PolicyRule>, after: set<PolicyRule>, party: Party) {
    forall q: Query, m: PolicyMatch | QueryParty(q) == party && Spellable(Decision(q)) ::
      Matched(before, q, m, PROJECTED) ==> Matched(after, q, m, PROJECTED)
  }

  /** A change of the table leaves the cache sound when the counters of every party it touches have moved. */
  lemma ChangeIsSound(table: set<PolicyRule>, after: set<PolicyRule>, entries: Entries, bumped: Entries)
    requires Sound(table, entries) && UniqueKeys(after) && VersionsSound(bumped)
    requires NoneGoesBack(entries, bumped) && SameDecisions(entries, bumped)
    requires forall party: Party :: MarkerFor(bumped, party) != MarkerFor(entries, party) || AnswersStay(table, after, party)
    ensures Sound(after, bumped)
  {
    hide Key, Matched, UniqueKeys, CachedJson, Count;
    forall q: Query
      ensures DecisionSound(after, bumped, q)
    {
      if Spellable(Decision(q)) && Key(Decision(q)) in bumped {
        assert DecisionSound(table, entries, q);
        var marker, m :| Stamped(table, entries, q, marker, m);
        MarkersGrow(entries, bumped, QueryParty(q));
        assert Stamped(after, bumped, q, marker, m);
      }
    }
  }

  lemma MarkersGrow(entries: Entries, bumped: Entries, party: Party)
    requires NoneGoesBack(entries, bumped)
    ensures AtMost(MarkerFor(entries, party), MarkerFor(bumped, party))
  {
    hide Count;
    assert Count(entries, GlobalVersion) <= Count(bumped, GlobalVersion);
    assert Count(entries, TenantVersion(party.tenantId)) <= Count(bumped, TenantVersion(party.tenantId));
    assert Count(entries, SubjectVersion(party)) <= Count(bumped, SubjectVersion(party));
  }

  /** The rows of the party are the same. */
  ghost predicate SameRows(before: set<PolicyRule>, after: set<PolicyRule>, party: Party) {
    forall r: PolicyRule | PartyOf(r) == party :: r in before <==> r in after
  }

  lemma SameRowsSameAnswers(before: set<PolicyRule>, after: set<PolicyRule>, party: Party)
    requires SameRows(before, after, party)
    ensures AnswersStay(before, after, party)
  {
    forall q: Query, m: PolicyMatch | QueryParty(q) == party && Matched(before, q, m, PROJECTED)
      ensures Matched(after, q, m, PROJECTED)
    {
      var r :| r in before && Newest(before, q, r) && m == FromRule(r, PROJECTED);
      assert Newest(after, q, r) by {
        assert PartyOf(r) == party;
        forall other | other in after && Allows(other, q)
          ensures other.policyVersion <= r.policyVersion
        {
          assert PartyOf(other) == party;
        }
      }
    }
  }

  /** After bumping a list of parties, each of them has a new marker. */
  lemma {:induction false} BumpsMove(entries: Entries, order: seq<Party>, n: nat, now: int)
    requires n <= |order| && VersionsSound(entries)
    ensures var (after, error) := BumpFirst(entries, order, n, now);
            && VersionsSound(after) && NoneGoesBack(entries, after) && SameDecisions(entries, after)
            && (error.None? ==> forall i | 0 <= i < n :: Count(entries, SubjectVersion(order[i])) < Count(after, SubjectVersion(order[i])))
            && (error.Some? ==> error == Some(ValidationError))
  {
    hide Key, Count, VersionsSound, Invalidated;
    if n > 0 {
      BumpsMove(entries, order, n - 1, now);
      var (before, error) := BumpFirst(entries, order, n - 1, now);
      if error.None? {
        InvalidationMoves(before, Some(order[n - 1].tenantId), Some(order[n - 1].subject), now);
        var after := BumpFirst(entries, order, n, now).0;
        forall name: Name
          ensures Count(entries, name) <= Count(after, name)
        {
          assert Count(entries, name) <= Count(before, name) <= Count(after, name);
        }
        assert forall name: Name :: Count(before, name) <= Count(after, name);
        SameDecisionsTransitive(entries, before, after);
      }
    }
  }

  /** Bumping goes through exactly when every listed party has a tenant and a subject that are not blank. */
  lemma {:induction false} BumpsOkIff(entries: Entries, order: seq<Party>, n: nat, now: int)
    requires n <= |order| && VersionsSound(entries)
    ensures BumpFirst(entries, order, n, now).1.None? <==>
            forall i | 0 <= i < n :: !Blank(order[i].tenantId) && !Blank(order[i].subject)
  {
    hide Key, Count, VersionsSound, Invalidated;
    if n > 0 {
      BumpsOkIff(entries, order, n - 1, now);
      BumpsMove(entries, order, n - 1, now);
      InvalidationMoves(BumpFirst(entries, order, n - 1, now).0, Some(order[n - 1].tenantId), Some(order[n - 1].subject), now);
    }
  }

  /** Every party of the list has a tenant and a subject that are not blank. */
  predicate AllNamed(order: seq<Party>) {
    forall i | 0 <= i < |order| :: !Blank(order[i].tenantId) && !Blank(order[i].subject)
  }

  lemma PartiesOkIff(entries: Entries, order: seq<Party>, now: int)
    requires VersionsSound(entries)
    ensures InvalidatedParties(entries, order, now).1 == if AllNamed(order) then None else Some(ValidationError)
  {
    hide Key, VersionsSound, BumpFirst, Invalidated;
    if order == [] {
      InvalidationMoves(entries, None, None, now);
    } else {
      BumpsMove(entries, order, |order|, now);
      BumpsOkIff(entries, order, |order|, now);
    }
  }

  /** A removal goes through exactly when all parties that it invalidates are named. */
  lemma RemoveOkIff(table: set<PolicyRule>, entries: Entries, grantId: string, order: seq<Party>, now: int)
    requires VersionsSound(entries)
    ensures RemoveProjection(table, entries, grantId, order, now).outcome == if AllNamed(order) then Ok(()) else Err(ValidationError)
  {
    hide InvalidatedParties, VersionsSound;
    PartiesOkIff(entries, order, now);
  }

  /** A reconciliation goes through exactly when the permissions of all grants are registered and, if there is anything
      to repair, all parties that the repair invalidates are named. */
  lemma ReconcileOkIff(table: set<PolicyRule>, entries: Entries, grants: seq<RoleGrant>, templates: map<string,
                       RoleTemplate>,
                       registry: Registry, repair: bool, order: seq<Party>, now: int)
    requires VersionsSound(entries) && DistinctIds(grants)
    ensures Reconcile(table, entries, grants, templates, registry, repair, order, now).outcome.Ok? <==>
            && AllRegistered(grants, templates, registry, |grants|)
            && (repair && Differs(grants, templates, table) ==> AllNamed(order))
  {
    hide InvalidatedParties, VersionsSound, StandsFor, Differs, AllRegistered, Lists, AllNamed;
    PartiesOkIff(entries, order, now);
    ExpectedOkIff(grants, templates, registry, |grants|);
    if AllRegistered(grants, templates, registry, |grants|) {
      var expected := RuleSet(ExpectedFirst(grants, templates, registry, |grants|).value);
      forall rule: PolicyRule
        ensures rule in expected <==> StandsFor(grants, templates, |grants|, rule)
      {
        ExpectedExact(grants, templates, registry, |grants|, rule);
      }
      DifferenceIff(grants, templates, expected, table);
    }
  }

  lemma SameDecisionsTransitive(a: Entries, b: Entries, c: Entries)
    requires SameDecisions(a, b) && SameDecisions(b, c)
    ensures SameDecisions(a, c)
  {
    hide Key;
  }

  /** The counters of a list of parties were bumped, or the global one if there was none; the table may then change for
      these parties. */
  lemma PartiesChange(table: set<PolicyRule>, after: set<PolicyRule>, entries: Entries, order: seq<Party>, now: int)
    requires Sound(table, entries) && UniqueKeys(after)
    requires forall party: Party | party !in order :: SameRows(table, after, party)
    ensures var (bumped, error) := InvalidatedParties(entries, order, now);
            && Sound(table, bumped) && (error.None? ==> Sound(after, bumped))
            && (error.Some? ==> error == Some(ValidationError))
  {
    hide Key, UniqueKeys, Count, SameRows, AnswersStay, VersionsSound, DecisionSound, BumpFirst, Invalidated;
    if order == [] {
      InvalidationMoves(entries, None, None, now);
    } else {
      BumpsMove(entries, order, |order|, now);
    }
    var (bumped, error) := InvalidatedParties(entries, order, now);
    forall party: Party
      ensures AnswersStay(table, table, party)
      ensures error.None? ==> MarkerFor(bumped, party) != MarkerFor(entries, party) || AnswersStay(table, after, party)
    {
      UnchangedStays(table, party);
      if party !in order {
        SameRowsSameAnswers(table, after, party);
      } else if error.None? {
        var i :| 0 <= i < |order| && order[i] == party;
        assert Count(entries, SubjectVersion(order[i])) < Count(bumped, SubjectVersion(order[i]));
      }
    }
    ChangeIsSound(table, table, entries, bumped);
    if error.None? {
      ChangeIsSound(table, after, entries, bumped);
    }
  }

  lemma UnchangedStays(table: set<PolicyRule>, party: Party)
    ensures AnswersStay(table, table, party)
  {
  }

  // ----- grants that move -----

  function QueryFor(rule: PolicyRule): Query {
    Query(rule.tenantId, rule.subject, rule.resource, rule.action)
  }

  /** Projecting the grant takes this row from another party, and it is the newest allow row of its query. */
  predicate TakenAway(table: set<PolicyRule>, grant: RoleGrant, rule: PolicyRule) {
    && rule in table && rule.roleGrantId == grant.id && PartyOf(rule) != GrantParty(grant)
    && Newest(table, QueryFor(rule), rule)
  }

  predicate NothingTakenAway(table: set<PolicyRule>, grant: RoleGrant) {
    forall rule | rule in table && Spellable(Decision(QueryFor(rule))) :: !TakenAway(table, grant, rule)
  }

  /** A projection bumps only the grant's present party. The right answers for all other parties stay right exactly when
      it takes none of their newest allow rows away. */
  lemma MovesAreSafeIff(table: set<PolicyRule>, grant: RoleGrant, template: RoleTemplate, registry: Registry)
    requires UniqueKeys(table) && Projected(table, grant, template, registry).Ok?
    ensures (forall party: Party | party != GrantParty(grant) :: AnswersStay(table, Projected(table, grant, template, registry).value, party))
            <==> NothingTakenAway(table, grant)
  {
    hide UniqueKeys, RulesForGrant, Matched;
    var after := Projected(table, grant, template, registry).value;
    if !NothingTakenAway(table, grant) {
      var rule :| rule in table && Spellable(Decision(QueryFor(rule))) && TakenAway(table, grant, rule);
      TakenAnswer(table, grant, template, registry, rule);
    } else {
      forall party: Party | party != GrantParty(grant)
        ensures AnswersStay(table, after, party)
      {
        forall q: Query, m: PolicyMatch | QueryParty(q) == party && Spellable(Decision(q)) && Matched(table, q, m, PROJECTED)
          ensures Matched(after, q, m, PROJECTED)
        {
          KeptAnswer(table, grant, template, registry, q, m);
        }
      }
    }
  }

  lemma OtherPartiesLose(table: set<PolicyRule>, grant: RoleGrant, template: RoleTemplate, registry: Registry,
                         r: PolicyRule)
    requires Projected(table, grant, template, registry).Ok? && PartyOf(r) != GrantParty(grant)
    ensures r in Projected(table, grant, template, registry).value <==> r in table && r.roleGrantId != grant.id
  {
    var rules := RulesForGrant(grant, template, registry).value;
    assert forall s | s in rules :: PartyOf(s) == GrantParty(grant);
  }

  lemma TakenAnswer(table: set<PolicyRule>, grant: RoleGrant, template: RoleTemplate, registry: Registry, r: PolicyRule)
    requires Projected(table, grant, template, registry).Ok? && TakenAway(table, grant, r)
    ensures var after := Projected(table, grant, template, registry).value;
            && Matched(table, QueryFor(r), FromRule(r, PROJECTED), PROJECTED)
            && !Matched(after, QueryFor(r), FromRule(r, PROJECTED), PROJECTED)
            && (Spellable(Decision(QueryFor(r))) ==> !AnswersStay(table, after, PartyOf(r)))
  {
    hide Projected;
    var q := QueryFor(r);
    var after := Projected(table, grant, template, registry).value;
    if Matched(after, q, FromRule(r, PROJECTED), PROJECTED) {
      var s :| s in after && Newest(after, q, s) && FromRule(r, PROJECTED) == FromRule(s, PROJECTED);
      assert s == r;
      OtherPartiesLose(table, grant, template, registry, r);
      assert false;
    }
  }

  lemma KeptAnswer(table: set<PolicyRule>, grant: RoleGrant, template: RoleTemplate, registry: Registry, q: Query,
                   m: PolicyMatch)
    requires Projected(table, grant, template, registry).Ok? && NothingTakenAway(table, grant)
    requires QueryParty(q) != GrantParty(grant) && Spellable(Decision(q)) && Matched(table, q, m, PROJECTED)
    ensures Matched(Projected(table, grant, template, registry).value, q, m, PROJECTED)
  {
    hide Projected;
    var after := Projected(table, grant, template, registry).value;
    var r :| r in table && Newest(table, q, r) && m == FromRule(r, PROJECTED);
    assert QueryFor(r) == q;
    OtherPartiesLose(table, grant, template, registry, r);
    forall other | other in after && Allows(other, q)
      ensures other.policyVersion <= r.policyVersion
    {
      OtherPartiesLose(table, grant, template, registry, other);
    }
    assert Newest(after, q, r);
  }

  // ----- the projector's calls -----

  lemma SubjectNotBlank(grant: RoleGrant)
    ensures !Blank(GrantParty(grant).subject)
  {
    assert GrantParty(grant).subject[|grant.subjectType|] == ':';
  }

  /** A projection that takes no other party's newest allow row away keeps the cache sound. */
  lemma ProjectIsSound(table: set<PolicyRule>, entries: Entries, grant: RoleGrant, template: RoleTemplate,
                       registry: Registry, now: int)
    requires Sound(table, entries)
    requires Projected(table, grant, template, registry).Ok? ==> NothingTakenAway(table, grant)
    ensures var done := ProjectGrant(table, entries, grant, template, registry, now);
            Sound(done.table, done.entries)
  {
    hide Key, Count, VersionsSound, DecisionSound, Invalidated, Projected, NothingTakenAway, AnswersStay, UniqueKeys;
    ProjectionOutcome(table, entries, grant, template, registry, now);
    var done := ProjectGrant(table, entries, grant, template, registry, now);
    var moves := done.outcome.Ok?;
    if moves {
      ProjectedKeepsUnique(table, grant, template, registry);
      MovesAreSafeIff(table, grant, template, registry);
    }
    forall party: Party
      ensures MarkerFor(done.entries, party) != MarkerFor(entries, party) || AnswersStay(table, done.table, party)
    {
      UnchangedStays(table, party);
    }
    ChangeIsSound(table, done.table, entries, done.entries);
  }

  /** A projection ends as `Projected` says; when it goes through, the grant's party has a new marker. */
  lemma ProjectionOutcome(table: set<PolicyRule>, entries: Entries, grant: RoleGrant, template: RoleTemplate,
                          registry: Registry, now: int)
    requires VersionsSound(entries)
    ensures var done := ProjectGrant(table, entries, grant, template, registry, now);
            var projected := Projected(table, grant, template, registry);
            && VersionsSound(done.entries) && NoneGoesBack(entries, done.entries) && SameDecisions(entries, done.entries)
            && (done.outcome.Ok? <==> projected.Ok?)
            && done.table == (if projected.Ok? then projected.value else table)
            && (projected.Err? ==> done.outcome == Err(projected.error))
            && (projected.Ok? ==> MarkerFor(done.entries, GrantParty(grant)) != MarkerFor(entries, GrantParty(grant)))
  {
    hide Key, Count, VersionsSound, Invalidated, RulesForGrant, DistinctRuleKeys;
    if RulesForGrant(grant, template, registry).Ok? {
      SubjectNotBlank(grant);
      InvalidationMoves(entries, Some(grant.tenantId), Some(GrantParty(grant).subject), now);
    }
  }

  lemma SoundIsUnique(table: set<PolicyRule>, entries: Entries)
    requires Sound(table, entries)
    ensures UniqueKeys(table)
  {
  }

  lemma RemoveIsSound(table: set<PolicyRule>, entries: Entries, grantId: string, tenantId: Option<string>,
                      subject: Option<string>,
                      order: seq<Party>, now: int)
    requires Sound(table, entries) && Lists(order, RemovedParties(table, grantId, tenantId, subject))
    ensures var done := RemoveProjection(table, entries, grantId, order, now); Sound(done.table, done.entries)
  {
    hide InvalidatedParties, Sound;
    var after := Without(table, grantId);
    SoundIsUnique(table, entries);
    forall r | r in table && r.roleGrantId == grantId
      ensures PartyOf(r) in order
    {
      assert PartyOf(r) in ProjectedParties(table, grantId) && PartyOf(r) in (set p | p in order);
    }
    PartiesChange(table, after, entries, order, now);
    var (bumped, error) := InvalidatedParties(entries, order, now);
    assert Sound(table, bumped) && (error.None? ==> Sound(after, bumped));
  }

  lemma ReconcileIsSound(table: set<PolicyRule>, entries: Entries, grants: seq<RoleGrant>, templates: map<string,
                         RoleTemplate>,
                         registry: Registry, repair: bool, order: seq<Party>, now: int)
    requires Sound(table, entries) && DistinctIds(grants)
    requires var rules := ExpectedFirst(grants, templates, registry, |grants|);
             rules.Ok? ==> Lists(order, ReconcileParties(RuleSet(rules.value), table))
    ensures var done := Reconcile(table, entries, grants, templates, registry, repair, order, now); Sound(done.table, done.entries)
  {
    hide InvalidatedParties, Sound;
    var rules := ExpectedFirst(grants, templates, registry, |grants|);
    if rules.Ok? {
      var expected := RuleSet(rules.value);
      var after := Repaired(expected, table);
      RepairReachesExpected(grants, templates, registry, table);
      forall r | r in Missing(expected, table) + Stale(expected, table)
        ensures PartyOf(r) in order
      {
        assert PartyOf(r) in ReconcileParties(expected, table) && PartyOf(r) in (set p | p in order);
      }
      PartiesChange(table, after, entries, order, now);
      var (bumped, error) := InvalidatedParties(entries, order, now);
      assert Sound(table, bumped) && (error.None? ==> Sound(after, bumped));
    }
  }

  // ----- histories -----

  datatype World = World(table: set<PolicyRule>, entries: Entries)

  /** One call. `order` is the order in which parties are invalidated, `answer` what the backend finds on a miss. */
  datatype Call =
    | ProjectCall(grant: RoleGrant, template: RoleTemplate, registry: Registry)
    | RemoveCall(grantId: string, tenantId: Option<string>, subject: Option<string>, order: seq<Party>)
    | ReconcileCall(grants: seq<RoleGrant>, templates: map<string, RoleTemplate>, registry: Registry, repair: bool, order: seq<Party>)
    | FindCall(q: Query, answer: Option<PolicyMatch>, ttlSeconds: int)

  datatype Step = Step(call: Call, now: int)

  function After<T>(done: Done<T>): World {
    World(done.table, done.entries)
  }

  function Next(w: World, step: Step): World {
    match step.call
    case ProjectCall(grant, template, registry) => After(ProjectGrant(w.table, w.entries, grant, template, registry, step.now))
    case RemoveCall(grantId, _, _, order) => After(RemoveProjection(w.table, w.entries, grantId, order, step.now))
    case ReconcileCall(grants, templates, registry, repair, order) =>
      After(Reconcile(w.table, w.entries, grants, templates, registry, repair, order, step.now))
    case FindCall(q, answer, ttlSeconds) => World(w.table, CachedFind(w.entries, answer, q, ttlSeconds, step.now).0)
  }

  /** What can be asked of the surroundings: lists of parties are complete, answers come from the table. */
  predicate Feasible(w: World, step: Step) {
    match step.call
    case ProjectCall(_, _, _) => true
    case RemoveCall(grantId, tenantId, subject, order) => Lists(order, RemovedParties(w.table, grantId, tenantId, subject))
    case ReconcileCall(grants, templates, registry, _, order) =>
      && DistinctIds(grants)
      && var rules := ExpectedFirst(grants, templates, registry, |grants|);
         (rules.Ok? ==> Lists(order, ReconcileParties(RuleSet(rules.value), w.table)))
    case FindCall(q, answer, ttlSeconds) =>
      ttlSeconds > 0 && (GetAllowing(w.entries, q, step.now).1 == Ok(None) ==> Answers(w.table, q, answer, PROJECTED))
  }

  /** A projection that goes through takes no other party's newest allow row away. */
  predicate SafeMove(w: World, step: Step) {
    step.call.ProjectCall? && Projected(w.table, step.call.grant, step.call.template, step.call.registry).Ok? ==>
      NothingTakenAway(w.table, step.call.grant)
  }

  predicate AllFeasible(w: World, steps: seq<Step>)
    decreases |steps|
  {
    steps == [] || (Feasible(w, steps[0]) && AllFeasible(Next(w, steps[0]), steps[1..]))
  }

  predicate AllSafe(w: World, steps: seq<Step>)
    decreases |steps|
  {
    steps == [] || (SafeMove(w, steps[0]) && AllSafe(Next(w, steps[0]), steps[1..]))
  }

  /** The reply of a lookup step. */
  function Reply(w: World, step: Step): Result<Option<PolicyMatch>>
    requires step.call.FindCall?
  {
    CachedFind(w.entries, step.call.answer, step.call.q, step.call.ttlSeconds, step.now).1
  }

  /** Every lookup along the history is answered as the table stands at that moment. */
  predicate AllCorrect(w: World, steps: seq<Step>)
    decreases |steps|
  {
    steps == [] ||
    ((steps[0].call.FindCall? ==> Correct(w.table, steps[0].call.q, Reply(w, steps[0])))
     && AllCorrect(Next(w, steps[0]), steps[1..]))
  }

  lemma NextInv(w: World, step: Step)
    requires Sound(w.table, w.entries) && Feasible(w, step) && SafeMove(w, step)
    ensures Sound(Next(w, step).table, Next(w, step).entries)
    ensures step.call.FindCall? ==> Correct(w.table, step.call.q, Reply(w, step))
  {
    hide Sound, Correct, ProjectGrant, Projected, NothingTakenAway, RemoveProjection, Reconcile, CachedFind, GetAllowing, Answers;
    match step.call
    case ProjectCall(grant, template, registry) => ProjectIsSound(w.table, w.entries, grant, template, registry, step.now);
    case RemoveCall(grantId, tenantId, subject, order) =>
      RemoveIsSound(w.table, w.entries, grantId, tenantId, subject, order, step.now);
    case ReconcileCall(grants, templates, registry, repair, order) =>
      ReconcileIsSound(w.table, w.entries, grants, templates, registry, repair, order, step.now);
    case FindCall(q, answer, ttlSeconds) => FindIsSound(w.table, w.entries, answer, q, ttlSeconds, step.now);
  }

  /** For every call-at-a-time history of projections, removals, repairs and lookups, with any clock readings, in which
      no projection takes another party's newest allow row away: each cached lookup answers None exactly when the table
      has no allow row, and otherwise a row of the newest policy version. */
  lemma {:induction false} LookupsAreCorrect(w: World, steps: seq<Step>)
    requires Sound(w.table, w.entries) && AllFeasible(w, steps) && AllSafe(w, steps)
    ensures AllCorrect(w, steps)
    decreases |steps|
  {
    hide Sound, Feasible, SafeMove, Next, Correct, CachedFind;
    if steps != [] {
      NextInv(w, steps[0]);
      LookupsAreCorrect(Next(w, steps[0]), steps[1..]);
    }
  }

  // ----- grants that keep their tenant and subject -----

  /** Every grant that the call is given belongs to its owner. */
  predicate KeepsOwners(step: Step, owner: string -> Party) {
    match step.call
    case ProjectCall(grant, _, _) => owner(grant.id) == GrantParty(grant)
    case ReconcileCall(grants, _, _, _, _) => forall i | 0 <= i < |grants| :: owner(grants[i].id) == GrantParty(grants[i])
    case _ => true
  }

  predicate Owned(table: set<PolicyRule>, owner: string -> Party) {
    forall r | r in table :: PartyOf(r) == owner(r.roleGrantId)
  }

  lemma NextOwned(w: World, step: Step, owner: string -> Party)
    requires Owned(w.table, owner) && KeepsOwners(step, owner)
    ensures Owned(Next(w, step).table, owner) && SafeMove(w, step)
  {
    hide Invalidated, InvalidatedParties, CachedFind, GetAllowing, Answers, Lists, Newest, Spellable;
    match step.call
    case ProjectCall(grant, template, registry) =>
    case RemoveCall(_, _, _, _) =>
    case ReconcileCall(grants, templates, registry, _, _) =>
      if ExpectedFirst(grants, templates, registry, |grants|).Ok? {
        var expected := RuleSet(ExpectedFirst(grants, templates, registry, |grants|).value);
        forall r | r in expected
          ensures PartyOf(r) == owner(r.roleGrantId)
        {
          ExpectedExact(grants, templates, registry, |grants|, r);
        }
      }
    case FindCall(_, _, _) =>
  }

  /** Grants that never change their tenant or subject make every projection a safe one. */
  lemma {:induction false} FixedOwnersAreSafe(w: World, steps: seq<Step>, owner: string -> Party)
    requires Owned(w.table, owner) && forall i | 0 <= i < |steps| :: KeepsOwners(steps[i], owner)
    ensures AllSafe(w, steps)
    decreases |steps|
  {
    hide Owned, KeepsOwners, SafeMove, Next;
    if steps != [] {
      NextOwned(w, steps[0], owner);
      forall i | 0 <= i < |steps[1..]|
        ensures KeepsOwners(steps[1..][i], owner)
      {
        assert steps[1..][i] == steps[i + 1];
      }
      FixedOwnersAreSafe(Next(w, steps[0]), steps[1..], owner);
    }
  }

  /** From an empty table and an empty cache, every history in which grants keep their tenant and subject answers every
      lookup correctly. */
  lemma LookupsFromEmpty(steps: seq<Step>, owner: string -> Party)
    requires AllFeasible(World({}, map[]), steps) && forall i | 0 <= i < |steps| :: KeepsOwners(steps[i], owner)
    ensures AllCorrect(World({}, map[]), steps)
  {
    hide AllFeasible, AllSafe, AllCorrect, KeepsOwners;
    FixedOwnersAreSafe(World({}, map[]), steps, owner);
    LookupsAreCorrect(World({}, map[]), steps);
  }

  // ----- grants that move -----

  /** The entry is a live decision for the query under the current marker. */
  predicate Fresh(entries: Entries, q: Query, m: PolicyMatch, expires: int) {
    Key(Decision(q)) in entries &&
    entries[Key(Decision(q))] == Entry(Document(CachedJson(MarkerFor(entries, QueryParty(q)), m)), Some(expires))
  }

  lemma SetIsFresh(table: set<PolicyRule>, entries: Entries, m: PolicyMatch, ttlSeconds: int, now: int)
    requires Sound(table, entries) && ttlSeconds > 0 && Spellable(Decision(QueryOf(m)))
    ensures var (after, stored) := SetAllowing(entries, m, ttlSeconds, now);
            stored == Ok(()) && Fresh(after, QueryOf(m), m, now + Seconds(ttlSeconds))
  {
    hide Key, CachedJson, ReadMarker, DecisionSound;
    var q := QueryOf(m);
    MarkerIsRead(entries, QueryParty(q), now);
    forall name: Name
      ensures Key(name) == Key(Decision(q)) ==> name == Decision(q)
    {
      if Key(name) == Key(Decision(q)) {
        KeysNeverCollide(name, Decision(q));
      }
    }
  }

  lemma FreshIsRead(entries: Entries, q: Query, m: PolicyMatch, expires: int, now: int)
    requires VersionsSound(entries) && Spellable(Decision(q)) && Fresh(entries, q, m, expires) && now < expires
    ensures GetAllowing(entries, q, now).1 == Ok(Some(m))
  {
    hide Key, ReadMarker, MarkerFor, VersionsSound;
    MarkerIsRead(entries, QueryParty(q), now);
    var marker := MarkerFor(entries, QueryParty(q));
    assert Purge(entries, Key(Decision(q)), now) == entries;
    MatchAtStamp(marker, m, marker);
  }

  /** Bumping one subject leaves the decisions of the others fresh. */
  lemma OthersStayFresh(entries: Entries, q: Query, m: PolicyMatch, expires: int, party: Party, now: int)
    requires VersionsSound(entries) && Fresh(entries, q, m, expires) && QueryParty(q) != party && PartySpellable(party)
    ensures var (after, version) := Invalidated(entries, Some(party.tenantId), Some(party.subject), now);
            version.Ok? && VersionsSound(after) && Fresh(after, q, m, expires)
  {
    hide Key, CachedJson, Invalidated, Count;
    InvalidationMoves(entries, Some(party.tenantId), Some(party.subject), now);
    var after := Invalidated(entries, Some(party.tenantId), Some(party.subject), now).0;
    assert MarkerFor(after, QueryParty(q)) == MarkerFor(entries, QueryParty(q));
  }

  /** When a grant moves to another tenant or subject, the party it leaves keeps the cached permission: a decision
      cached from a row that the projection takes away is still given back afterwards, until it expires. */
  lemma MovedGrantStaysCached(table: set<PolicyRule>, entries: Entries, row: PolicyRule, grant: RoleGrant,
                              template: RoleTemplate, registry: Registry, ttlSeconds: int, now: int, later: int,
                              answer: Option<PolicyMatch>)
    requires Sound(table, entries) && TakenAway(table, grant, row) && Spellable(Decision(QueryFor(row)))
    requires GetAllowing(entries, QueryFor(row), now).1 == Ok(None)
    requires Projected(table, grant, template, registry).Ok?
    requires ttlSeconds > 0 && later < now + Seconds(ttlSeconds)
    ensures var q := QueryFor(row);
            var m := FromRule(row, PROJECTED);
            var first := CachedFind(entries, Some(m), q, ttlSeconds, now);
            var done := ProjectGrant(table, first.0, grant, template, registry, now);
            && Answers(table, q, Some(m), PROJECTED)
            && done.outcome.Ok? && !Matched(done.table, q, m, PROJECTED)
            && Sound(table, first.0)
            && CachedFind(done.entries, answer, q, ttlSeconds, later).1 == Ok(Some(m))
  {
    hide Key, Fresh, VersionsSound, DecisionSound, GetAllowing, SetAllowing, Invalidated, RulesForGrant, DistinctRuleKeys, Newest,
         UniqueKeys, Projected;
    var q := QueryFor(row);
    var m := FromRule(row, PROJECTED);
    var party := GrantParty(grant);
    TakenAnswer(table, grant, template, registry, row);
    GetIsSound(table, entries, q, now);
    var e0 := GetAllowing(entries, q, now).0;
    SetIsFresh(table, e0, m, ttlSeconds, now);
    SetIsSound(table, e0, m, ttlSeconds, now);
    var e1 := SetAllowing(e0, m, ttlSeconds, now).0;
    assert CachedFind(entries, Some(m), q, ttlSeconds, now).0 == e1;
    ProjectionOutcome(table, e1, grant, template, registry, now);
    ProjectedIsForParty(table, grant, template, registry);
    SubjectNotBlank(grant);
    OthersStayFresh(e1, q, m, now + Seconds(ttlSeconds), party, now);
    var done := ProjectGrant(table, e1, grant, template, registry, now);
    FreshIsRead(done.entries, q, m, now + Seconds(ttlSeconds), later);
  }

  lemma ProjectedIsForParty(table: set<PolicyRule>, grant: RoleGrant, template: RoleTemplate, registry: Registry)
    requires Projected(table, grant, template, registry).Ok?
    ensures RulesForGrant(grant, template, registry).Ok? && !Blank(grant.tenantId)
  {
  }

  /** Whoever asks, and whenever, a cached lookup is answered as the table stands. */
  ghost predicate LookupsRight(table: set<PolicyRule>, entries: Entries) {
    forall q: Query, answer: Option<PolicyMatch>, ttlSeconds: int, now: int ::
      ttlSeconds > 0 && (GetAllowing(entries, q, now).1 == Ok(None) ==> Answers(table, q, answer, PROJECTED)) ==>
        Correct(table, q, CachedFind(entries, answer, q, ttlSeconds, now).1)
  }

  lemma SoundMeansRight(table: set<PolicyRule>, entries: Entries)
    requires Sound(table, entries)
    ensures LookupsRight(table, entries)
  {
    hide Sound, GetAllowing, CachedFind, Correct, Answers;
    forall q: Query, answer: Option<PolicyMatch>, ttlSeconds: int, now: int
         | ttlSeconds > 0 && (GetAllowing(entries, q, now).1 == Ok(None) ==> Answers(table, q, answer, PROJECTED))
      ensures Correct(table, q, CachedFind(entries, answer, q, ttlSeconds, now).1)
    {
      FindIsSound(table, entries, answer, q, ttlSeconds, now);
    }
  }

  /** After the projection every lookup is right, whatever the cache soundly held before. */
  ghost predicate ProjectKeepsLookupsRight(table: set<PolicyRule>, grant: RoleGrant, template: RoleTemplate,
                                           registry: Registry) {
    forall entries: Entries, now: int | Sound(table, entries) ::
      LookupsRight(ProjectGrant(table, entries, grant, template, registry, now).table,
                   ProjectGrant(table, entries, grant, template, registry, now).entries)
  }

  /** A projection leaves all cached lookups right exactly when it takes no other party's newest allow row away. */
  lemma LookupsStayRightIff(table: set<PolicyRule>, grant: RoleGrant, template: RoleTemplate, registry: Registry)
    requires UniqueKeys(table) && Projected(table, grant, template, registry).Ok?
    ensures ProjectKeepsLookupsRight(table, grant, template, registry) <==> NothingTakenAway(table, grant)
  {
    hide Sound, LookupsRight, ProjectGrant, UniqueKeys, Projected, TakenAway, Spellable;
    if NothingTakenAway(table, grant) {
      forall entries: Entries, now: int | Sound(table, entries)
        ensures LookupsRight(ProjectGrant(table, entries, grant, template, registry, now).table,
                             ProjectGrant(table, entries, grant, template, registry, now).entries)
      {
        ProjectIsSound(table, entries, grant, template, registry, now);
        var done := ProjectGrant(table, entries, grant, template, registry, now);
        SoundMeansRight(done.table, done.entries);
      }
    } else {
      var row :| row in table && Spellable(Decision(QueryFor(row))) && TakenAway(table, grant, row);
      var entries, now := WrongLookup(table, grant, template, registry, row);
    }
  }

  /** A sound cache from which a projection that takes the row away makes a lookup go wrong. */
  lemma WrongLookup(table: set<PolicyRule>, grant: RoleGrant, template: RoleTemplate, registry: Registry, row: PolicyRule)
    returns (entries: Entries, now: int)
    requires UniqueKeys(table) && Projected(table, grant, template, registry).Ok?
    requires TakenAway(table, grant, row) && Spellable(Decision(QueryFor(row)))
    ensures Sound(table, entries)
    ensures var done := ProjectGrant(table, entries, grant, template, registry, now); !LookupsRight(done.table, done.entries)
  {
    hide UniqueKeys, ProjectGrant, Matched, CachedFind, Spellable, TakenAway;
    var q := QueryFor(row);
    var m := FromRule(row, PROJECTED);
    EmptyIsSound(table, q);
    now := 0;
    entries := CachedFind(map[], Some(m), q, 1, now).0;
    var done := ProjectGrant(table, entries, grant, template, registry, now);
    var answer := AnyAnswer(done.table, q);
    MovedGrantStaysCached(table, map[], row, grant, template, registry, 1, now, now, answer);
    assert CachedFind(done.entries, answer, q, 1, now).1 == Ok(Some(m));
  }

  lemma EmptyIsSound(table: set<PolicyRule>, q: Query)
    requires UniqueKeys(table)
    ensures Sound(table, map[])
    ensures Spellable(Decision(q)) ==> GetAllowing(map[], q, 0).1 == Ok(None)
  {
  }

  /** The backend always has an answer. */
  lemma AnyAnswer(table: set<PolicyRule>, q: Query) returns (answer: Option<PolicyMatch>)
    ensures Answers(table, q, answer, PROJECTED)
  {
    if rule :| rule in table && Allows(rule, q) {
      var best := NewestOf(table, q, rule, table);
      assert Newest(table, q, best);
      answer := Some(FromRule(best, PROJECTED));
    } else {
      answer := None;
    }
  }

  lemma {:induction false} NewestOf(table: set<PolicyRule>, q: Query, rule: PolicyRule, rest: set<PolicyRule>)
    returns (best: PolicyRule)
    requires rule in table && Allows(rule, q) && rest <= table
    ensures best in table && Allows(best, q) && rule.policyVersion <= best.policyVersion
    ensures forall other | other in rest && Allows(other, q) :: other.policyVersion <= best.policyVersion
    decreases |rest|
  {
    best := rule;
    if rest != {} {
      var other :| other in rest;
      if Allows(other, q) && rule.policyVersion < other.policyVersion {
        best := NewestOf(table, q, other, rest - {other});
      } else {
        best := NewestOf(table, q, rule, rest - {other});
      }
    }
  }
}
