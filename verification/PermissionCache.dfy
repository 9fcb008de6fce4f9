/** The distributed permission cache: allowing matches under decision keys, each stamped with the version counters of
    the platform, the tenant and the subject, and refused once any of these has moved. */
module PermissionCache {
  import opened Common
  import opened Keys
  import opened MemoryCache
  import opened Policies

  // ----- documents -----

  datatype Json = Text(text: string) | Integer(n: int) | Object(fields: map<string, Json>)

  datatype PolicyMatch = PolicyMatch(
    tenantId: string, subject: string, resource: string, action: string,
    roleGrantId: string, policyVersion: int, effect: string, reason: string)

  function ToDict(m: PolicyMatch): map<string, Json> {
    map["tenant_id" := Text(m.tenantId), "subject" := Text(m.subject), "resource" := Text(m.resource),
        "action" := Text(m.action), "effect" := Text(m.effect), "role_grant_id" := Text(m.roleGrantId),
        "policy_version" := Integer(m.policyVersion), "reason" := Text(m.reason)]
  }

  predicate HasText(fields: map<string, Json>, name: string) {
    name in fields && fields[name].Text?
  }

  function FromDict(fields: map<string, Json>): Option<PolicyMatch> {
    if HasText(fields, "tenant_id") && HasText(fields, "subject") && HasText(fields, "resource") && HasText(fields, "action")
       && HasText(fields, "effect") && HasText(fields, "role_grant_id") && HasText(fields, "reason")
       && "policy_version" in fields && fields["policy_version"].Integer?
    then
      Some(PolicyMatch(fields["tenant_id"].text, fields["subject"].text, fields["resource"].text, fields["action"].text,
                       fields["role_grant_id"].text, fields["policy_version"].n, fields["effect"].text, fields["reason"].text))
    else None
  }

  /** A match that is written to the cache is read back unchanged. */
  lemma DictRoundTrip(m: PolicyMatch)
    ensures FromDict(ToDict(m)) == Some(m)
  {
  }

  datatype Marker = Marker(global: int, tenant: int, subject: int)

  function MarkerJson(m: Marker): Json {
    Object(map["global" := Integer(m.global), "tenant" := Integer(m.tenant), "subject" := Integer(m.subject)])
  }

  lemma MarkerInjective(a: Marker, b: Marker)
    requires MarkerJson(a) == MarkerJson(b)
    ensures a == b
  {
    var x, y := MarkerJson(a).fields, MarkerJson(b).fields;
    assert x["global"] == y["global"] && x["tenant"] == y["tenant"] && x["subject"] == y["subject"];
  }

  function CachedJson(marker: Marker, m: PolicyMatch): Json {
    Object(map["version" := MarkerJson(marker), "match" := Object(ToDict(m))])
  }

  // ----- keys -----

  datatype Query = Query(tenantId: string, subject: string, resource: string, action: string)

  datatype Name =
    | GlobalVersion
    | TenantVersion(tenantId: string)
    | SubjectVersion(party: Party)
    | Decision(query: Query)

  function QueryOf(m: PolicyMatch): Query {
    Query(m.tenantId, m.subject, m.resource, m.action)
  }

  function QueryParty(q: Query): Party {
    Party(q.tenantId, q.subject)
  }

  function Part(name: string, value: string): string {
    name + "=" + Quote(value)
  }

  function Segments(name: Name): seq<string> {
    match name
    case GlobalVersion => ["permission", "policy_version"]
    case TenantVersion(t) => ["permission", Part("tenant_id", t), "policy_version"]
    case SubjectVersion(p) => ["permission", Part("tenant_id", p.tenantId), Part("subject", p.subject), "policy_version"]
    case Decision(q) =>
      ["permission", Part("tenant_id", q.tenantId), Part("subject", q.subject), Part("resource", q.resource),
       Part("action", q.action), "decision"]
  }

  /** No part may be blank. */
  predicate Spellable(name: Name) {
    match name
    case GlobalVersion => true
    case TenantVersion(t) => !Blank(t)
    case SubjectVersion(p) => !Blank(p.tenantId) && !Blank(p.subject)
    case Decision(q) => !Blank(q.tenantId) && !Blank(q.subject) && !Blank(q.resource) && !Blank(q.action)
  }

  function Key(name: Name): string {
    Join(Segments(name))
  }

  lemma PartIsSegment(name: string, value: string)
    requires name != "" && !IsSpace(name[0]) && NoColon(name)
    ensures Segment(Part(name, value))
  {
    QuoteHasNoColon(value);
    assert !IsSpace(Part(name, value)[0]);
  }

  lemma PartInjective(name: string, a: string, b: string)
    requires Part(name, a) == Part(name, b)
    ensures a == b
  {
    assert Quote(a) == Part(name, a)[|name| + 1..] == Part(name, b)[|name| + 1..] == Quote(b);
    QuoteInjective(a, b);
  }

  lemma SegmentsAreGood(name: Name)
    ensures AllSegments(Segments(name))
  {
    hide Part, Blank, NoColon;
    Literals();
    match name
    case GlobalVersion =>
    case TenantVersion(t) => PartIsSegment("tenant_id", t);
    case SubjectVersion(p) =>
      PartIsSegment("tenant_id", p.tenantId);
      PartIsSegment("subject", p.subject);
    case Decision(q) =>
      PartIsSegment("tenant_id", q.tenantId);
      PartIsSegment("subject", q.subject);
      PartIsSegment("resource", q.resource);
      PartIsSegment("action", q.action);
  }

  lemma Literals()
    ensures Segment("permission") && Segment("policy_version") && Segment("decision")
    ensures NoColon("tenant_id") && NoColon("subject") && NoColon("resource") && NoColon("action")
  {
    assert !IsSpace("permission"[0]) && !IsSpace("policy_version"[0]) && !IsSpace("decision"[0]);
  }

  /** The cache keys are built without an error and are never blank. */
  lemma KeyIsCacheKey(name: Name)
    ensures CacheKey(Segments(name)) == Ok(Key(name)) && !Blank(Key(name))
  {
    SegmentsAreGood(name);
    assert !IsSpace(Key(name)[0]);
  }

  /** No two names share a key: decision keys and version keys never collide, and neither do those of different
      tenants, subjects, resources or actions. */
  lemma KeysNeverCollide(a: Name, b: Name)
    requires Key(a) == Key(b)
    ensures a == b
  {
    hide Part, Key;
    SegmentsAreGood(a);
    SegmentsAreGood(b);
    SameSegments(a, b);
    SameNames(a, b);
  }

  lemma SameSegments(a: Name, b: Name)
    requires Key(a) == Key(b) && AllSegments(Segments(a)) && AllSegments(Segments(b))
    ensures Segments(a) == Segments(b)
  {
    JoinInjective(Segments(a), Segments(b));
  }

  lemma SameNames(a: Name, b: Name)
    requires Segments(a) == Segments(b)
    ensures a == b
  {
    hide Part;
    var s, t := Segments(a), Segments(b);
    assert |s| == |t|;
    if |s| > 2 {
      PartInjective("tenant_id", if |s| == 3 then a.tenantId else if |s| == 4 then a.party.tenantId else a.query.tenantId,
                                 if |s| == 3 then b.tenantId else if |s| == 4 then b.party.tenantId else b.query.tenantId);
    }
    if |s| > 3 {
      assert s[2] == t[2];
      PartInjective("subject", if |s| == 4 then a.party.subject else a.query.subject,
                               if |s| == 4 then b.party.subject else b.query.subject);
    }
    if |s| > 4 {
      assert s[3] == t[3] && s[4] == t[4];
      PartInjective("resource", a.query.resource, b.query.resource);
      PartInjective("action", a.query.action, b.query.action);
    }
  }

  // ----- reading, writing and invalidating -----

  type Entries = map<string, Entry<Json>>

  function ReadVersion(entries: Entries, name: Name, now: int): (Entries, Result<int>) {
    if !Spellable(name) then (entries, Err(ValidationError))
    else
      var version :=
        match Lookup(entries, Key(name), now)
        case None => Ok(0)
        case Some(Number(n)) => Ok(n)
        case Some(Document(_)) => Err(Conflict);
      (Purge(entries, Key(name), now), version)
  }

  function ReadMarker(entries: Entries, party: Party, now: int): (Entries, Result<Marker>) {
    var (e0, global) := ReadVersion(entries, GlobalVersion, now);
    if global.Err? then (e0, Err(global.error))
    else
      var (e1, tenant) := ReadVersion(e0, TenantVersion(party.tenantId), now);
      if tenant.Err? then (e1, Err(tenant.error))
      else
        var (e2, subject) := ReadVersion(e1, SubjectVersion(party), now);
        if subject.Err? then (e2, Err(subject.error)) else (e2, Ok(Marker(global.value, tenant.value, subject.value)))
  }

  /** The fields of a cached document, if it is one. */
  function CachedFields(cached: Option<Value<Json>>): Option<map<string, Json>> {
    match cached
    case Some(Document(Object(fields))) => Some(fields)
    case _ => None
  }

  /** The match in a cached document whose version is the given marker. */
  function MatchAt(fields: map<string, Json>, marker: Marker): Option<PolicyMatch> {
    if "version" in fields && fields["version"] == MarkerJson(marker) && "match" in fields && fields["match"].Object?
    then FromDict(fields["match"].fields) else None
  }

  function GetAllowing(entries: Entries, q: Query, now: int): (Entries, Result<Option<PolicyMatch>>) {
    if !Spellable(Decision(q)) then (entries, Err(ValidationError))
    else
      var fields := CachedFields(Lookup(entries, Key(Decision(q)), now));
      var e0 := Purge(entries, Key(Decision(q)), now);
      if fields.None? then (e0, Ok(None))
      else
        var (e1, marker) := ReadMarker(e0, QueryParty(q), now);
        (e1, if marker.Err? then Err(marker.error) else Ok(MatchAt(fields.value, marker.value)))
  }

  function SetAllowing(entries: Entries, m: PolicyMatch, ttlSeconds: int, now: int): (Entries, Result<()>) {
    var (e0, marker) := ReadMarker(entries, QueryParty(QueryOf(m)), now);
    if marker.Err? then (e0, Err(marker.error))
    else if !Spellable(Decision(QueryOf(m))) || ttlSeconds <= 0 then (e0, Err(ValidationError))
    else
      (e0[Key(Decision(QueryOf(m))) := Entry(Document(CachedJson(marker.value, m)), Some(now + Seconds(ttlSeconds)))], Ok(()))
  }

  /** The counter that an invalidation moves; a subject is only known together with its tenant. */
  function InvalidationName(tenantId: Option<string>, subject: Option<string>): Result<Name> {
    if subject.Some? && tenantId.None? then Err(ValidationError)
    else
      var name := if tenantId.None? then GlobalVersion
                  else if subject.None? then TenantVersion(tenantId.value)
                  else SubjectVersion(Party(tenantId.value, subject.value));
      if Spellable(name) then Ok(name) else Err(ValidationError)
  }

  function Invalidated(entries: Entries, tenantId: Option<string>, subject: Option<string>, now: int): (Entries,
                       Result<int>) {
    var name := InvalidationName(tenantId, subject);
    if name.Err? then (entries, Err(name.error))
    else Incremented(entries, Key(name.value), 1, None, true, now)
  }

  // ----- counters never recur -----

  /** Version keys hold permanent integers. */
  ghost predicate VersionsSound(entries: Entries) {
    forall name: Name | !name.Decision? && Key(name) in entries ::
      entries[Key(name)].value.Number? && entries[Key(name)].expiresAt.None?
  }

  function Count(entries: Entries, name: Name): int {
    if Key(name) in entries && entries[Key(name)].value.Number? then entries[Key(name)].value.n else 0
  }

  function MarkerFor(entries: Entries, party: Party): Marker {
    Marker(Count(entries, GlobalVersion), Count(entries, TenantVersion(party.tenantId)), Count(entries, SubjectVersion(party)))
  }

  predicate PartySpellable(party: Party) {
    !Blank(party.tenantId) && !Blank(party.subject)
  }

  lemma MarkerIsRead(entries: Entries, party: Party, now: int)
    requires VersionsSound(entries)
    ensures ReadMarker(entries, party, now) ==
            (entries, if PartySpellable(party) then Ok(MarkerFor(entries, party)) else Err(ValidationError))
  {
    hide Key;
    VersionIsRead(entries, GlobalVersion, now);
    VersionIsRead(entries, TenantVersion(party.tenantId), now);
    VersionIsRead(entries, SubjectVersion(party), now);
  }

  lemma VersionIsRead(entries: Entries, name: Name, now: int)
    requires VersionsSound(entries) && !name.Decision?
    ensures ReadVersion(entries, name, now) == (entries, if Spellable(name) then Ok(Count(entries, name)) else Err(ValidationError))
  {
    hide Key;
  }

  /** Every counter of one state is at most what it is in the other. */
  ghost predicate NoneGoesBack(before: Entries, after: Entries) {
    forall name: Name :: Count(before, name) <= Count(after, name)
  }

  ghost predicate SameDecisions(before: Entries, after: Entries) {
    forall q: Query ::
      && (Key(Decision(q)) in after <==> Key(Decision(q)) in before)
      && (Key(Decision(q)) in before ==> after[Key(Decision(q))] == before[Key(Decision(q))])
  }

  /** An invalidation moves one counter up by one and nothing else, so a marker that it moved never comes back. */
  lemma InvalidationMoves(entries: Entries, tenantId: Option<string>, subject: Option<string>, now: int)
    requires VersionsSound(entries)
    ensures var (after, version) := Invalidated(entries, tenantId, subject, now);
            var name := InvalidationName(tenantId, subject);
            && VersionsSound(after) && NoneGoesBack(entries, after) && SameDecisions(entries, after)
            && (if name.Err? then version == Err(name.error) && after == entries
                else && version == Ok(Count(after, name.value))
                     && forall other: Name :: Count(after, other) == Count(entries, other) + if other == name.value then 1 else 0)
  {
    hide Key;
    var name := InvalidationName(tenantId, subject);
    if name.Ok? {
      forall other: Name
        ensures Key(other) == Key(name.value) ==> other == name.value
      {
        if Key(other) == Key(name.value) {
          KeysNeverCollide(other, name.value);
        }
      }
    }
  }

  // ----- what is written is read until something moves -----

  /** A cached document gives its match back exactly under the marker it was stamped with. */
  lemma MatchAtStamp(marker: Marker, m: PolicyMatch, current: Marker)
    ensures MatchAt(CachedJson(marker, m).fields, current) == if marker == current then Some(m) else None
  {
    hide ToDict, FromDict, MarkerJson;
    DictRoundTrip(m);
    if MarkerJson(marker) == MarkerJson(current) {
      MarkerInjective(marker, current);
    }
  }

  predicate AllGiven(q: Query) {
    !Blank(q.tenantId) && !Blank(q.subject) && !Blank(q.resource) && !Blank(q.action)
  }

  lemma DecisionKeepsVersions(entries: Entries, q: Query, entry: Entry<Json>)
    requires VersionsSound(entries)
    ensures var after := entries[Key(Decision(q)) := entry];
            VersionsSound(after) && forall name: Name | !name.Decision? :: Count(after, name) == Count(entries, name)
  {
    hide Key;
    forall name: Name | !name.Decision?
      ensures Key(name) != Key(Decision(q))
    {
      if Key(name) == Key(Decision(q)) {
        KeysNeverCollide(name, Decision(q));
      }
    }
  }

  /** A match for a query with all its parts and a positive time to live is stored, and read back until that ends; no
      other is stored. */
  lemma SetThenGet(entries: Entries, m: PolicyMatch, ttlSeconds: int, now: int, later: int)
    requires VersionsSound(entries)
    ensures var (after, stored) := SetAllowing(entries, m, ttlSeconds, now);
            && stored == (if AllGiven(QueryOf(m)) && ttlSeconds >= 1 then Ok(()) else Err(ValidationError))
            && VersionsSound(after) && (stored.Err? ==> after == entries)
            && (stored.Ok? ==>
                  GetAllowing(after, QueryOf(m), later).1 == Ok(if later < now + Seconds(ttlSeconds) then Some(m) else None))
  {
    hide Key, CachedJson, ReadMarker, VersionsSound, MarkerFor, MatchAt;
    var q := QueryOf(m);
    MarkerIsRead(entries, QueryParty(q), now);
    var (after, stored) := SetAllowing(entries, m, ttlSeconds, now);
    if stored.Ok? {
      var marker := MarkerFor(entries, QueryParty(q));
      DecisionKeepsVersions(entries, q, Entry(Document(CachedJson(marker, m)), Some(now + Seconds(ttlSeconds))));
      SameMarker(entries, after, QueryParty(q));
      if later < now + Seconds(ttlSeconds) {
        StoredIsRead(after, q, later, marker, m);
      }
    }
  }

  lemma SameMarker(entries: Entries, after: Entries, party: Party)
    requires forall name: Name | !name.Decision? :: Count(after, name) == Count(entries, name)
    ensures MarkerFor(after, party) == MarkerFor(entries, party)
  {
    hide Key, Count;
  }

  /** A live document stamped with some marker is read exactly when that is the current one. */
  lemma StoredIsRead(entries: Entries, q: Query, now: int, marker: Marker, m: PolicyMatch)
    requires VersionsSound(entries) && AllGiven(q)
    requires Lookup(entries, Key(Decision(q)), now) == Some(Document(CachedJson(marker, m)))
    ensures GetAllowing(entries, q, now).1 == Ok(if marker == MarkerFor(entries, QueryParty(q)) then Some(m) else None)
  {
    hide Key, ReadMarker, VersionsSound, MarkerFor, MatchAt, ToDict, MarkerJson;
    MarkerIsRead(entries, QueryParty(q), now);
    MatchAtStamp(marker, m, MarkerFor(entries, QueryParty(q)));
  }

  /** An invalidation needs the tenant with the subject, and both not blank; it concerns everyone, a tenant, or one
      party. */
  lemma InvalidationConcerns(tenantId: Option<string>, subject: Option<string>)
    ensures InvalidationName(tenantId, subject) ==
            match (tenantId, subject)
            case (None, None) => Ok(GlobalVersion)
            case (None, Some(_)) => Err(ValidationError)
            case (Some(t), None) => if Blank(t) then Err(ValidationError) else Ok(TenantVersion(t))
            case (Some(t), Some(s)) => if Blank(t) || Blank(s) then Err(ValidationError) else Ok(SubjectVersion(Party(t, s)))
  {
  }

  /** Once an invalidation has gone through that concerns the party of a stored match, the match is not read any more,
      and any other is read as before. */
  lemma InvalidatedIsNotRead(entries: Entries, m: PolicyMatch, ttlSeconds: int, now: int, tenantId: Option<string>,
                             subject: Option<string>, later: int)
    requires VersionsSound(entries) && AllGiven(QueryOf(m)) && ttlSeconds >= 1
    ensures var stored := SetAllowing(entries, m, ttlSeconds, now).0;
            var (after, version) := Invalidated(stored, tenantId, subject, later);
            var concerned := (tenantId == None || tenantId == Some(m.tenantId)) && (subject == None || subject == Some(m.subject));
            version.Ok? ==>
              GetAllowing(after, QueryOf(m), later).1 ==
              Ok(if !concerned && later < now + Seconds(ttlSeconds) then Some(m) else None)
  {
    hide Key, CachedJson, ReadMarker, VersionsSound, MatchAt, Invalidated, Count;
    var q := QueryOf(m);
    var marker := MarkerFor(entries, QueryParty(q));
    SetThenGet(entries, m, ttlSeconds, now, later);
    MarkerIsRead(entries, QueryParty(q), now);
    var stored := SetAllowing(entries, m, ttlSeconds, now).0;
    DecisionKeepsVersions(entries, q, Entry(Document(CachedJson(marker, m)), Some(now + Seconds(ttlSeconds))));
    InvalidationMoves(stored, tenantId, subject, later);
    InvalidationConcerns(tenantId, subject);
    var (after, version) := Invalidated(stored, tenantId, subject, later);
    if version.Ok? && later < now + Seconds(ttlSeconds) {
      StoredIsRead(after, q, later, marker, m);
    }
  }
}
