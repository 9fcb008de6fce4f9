/** The quota service and the mutation gate: reserve every quota, run the handler, and give everything back when
    either fails. */
module QuotaGate {
  import opened Common
  import opened Keys
  import opened QuotaUsage

  // ----- rules, subjects and keys -----

  datatype Scope = TenantScope | UserScope | ResourceScope

  datatype Subject = Subject(tenantId: string, userId: Option<string>, resourceType: Option<string>, resourceId: Option<string>)

  datatype RuleFields = RuleFields(metric: string, limit: int, scope: Scope)

  /** Rules as their constructor accepts them. */
  type Rule = rule: RuleFields | !Blank(rule.metric) && NoColon(rule.metric) && rule.limit >= 0 witness SmallestRule()

  function SmallestRule(): (rule: RuleFields)
    ensures !Blank(rule.metric) && NoColon(rule.metric) && rule.limit >= 0
  {
    var metric := "m";
    assert !IsSpace(metric[0]);
    RuleFields(metric, 0, TenantScope)
  }

  predicate Given(part: Option<string>) {
    part.Some? && !Blank(part.value)
  }

  function PartsFor(subject: Subject, scope: Scope): Result<seq<string>> {
    if Blank(subject.tenantId) then Err(ValidationError)
    else
      var tenant := "tenant_id=" + subject.tenantId;
      match scope
      case TenantScope => Ok([tenant])
      case UserScope =>
        if Given(subject.userId) then Ok([tenant, "user_id=" + subject.userId.value]) else Err(ValidationError)
      case ResourceScope =>
        if Given(subject.resourceType) && Given(subject.resourceId)
        then Ok([tenant, "resource_type=" + subject.resourceType.value, "resource_id=" + subject.resourceId.value])
        else Err(ValidationError)
  }

  function KeyFor(rule: Rule, subject: Subject): Result<string> {
    var parts := PartsFor(subject, rule.scope);
    if parts.Err? then Err(parts.error) else CacheKey(["quota", rule.metric] + parts.value)
  }

  /** A part of a subject that a key can hold. */
  predicate Spellable(part: Option<string>) {
    part.Some? && !Blank(part.value) && NoColon(part.value)
  }

  lemma PartIsSegment(prefix: string, value: string)
    requires prefix != "" && !IsSpace(prefix[0]) && NoColon(prefix)
    ensures Segment(prefix + value) <==> NoColon(value)
  {
    assert (prefix + value)[0] == prefix[0];
    assert forall c :: c in prefix + value <==> c in prefix || c in value;
  }

  /** A subject has a key in a rule's scope exactly when the tenant, and the user or the resource that the scope asks
      for, is given, is not blank and holds no ':'. */
  lemma KeyExistsIff(rule: Rule, subject: Subject)
    ensures KeyFor(rule, subject).Ok? <==>
            && Spellable(Some(subject.tenantId))
            && (rule.scope.UserScope? ==> Spellable(subject.userId))
            && (rule.scope.ResourceScope? ==> Spellable(subject.resourceType) && Spellable(subject.resourceId))
  {
    hide Blank, NoColon, Join;
    PrefixesAreSegments();
    PartIsSegment("tenant_id=", subject.tenantId);
    var parts := PartsFor(subject, rule.scope);
    if parts.Ok? {
      var segments := ["quota", rule.metric] + parts.value;
      assert segments[0] == "quota" && segments[1] == rule.metric && segments[2] == "tenant_id=" + subject.tenantId;
      match rule.scope
      case TenantScope =>
      case UserScope =>
        PartIsSegment("user_id=", subject.userId.value);
        assert segments[3] == "user_id=" + subject.userId.value;
      case ResourceScope =>
        PartIsSegment("resource_type=", subject.resourceType.value);
        PartIsSegment("resource_id=", subject.resourceId.value);
        assert segments[3] == "resource_type=" + subject.resourceType.value;
        assert segments[4] == "resource_id=" + subject.resourceId.value;
    }
  }

  lemma PrefixesAreSegments()
    ensures Segment("quota")
    ensures forall prefix | prefix in {"tenant_id=", "user_id=", "resource_type=", "resource_id="} ::
              NoColon(prefix) && !IsSpace(prefix[0])
  {
    assert !IsSpace("quota"[0]);
  }

  /** Two reservations share a usage counter only when they are for the same metric, scope and scoped subject. */
  lemma KeyIdentifies(a: Rule, b: Rule, s: Subject, t: Subject)
    requires KeyFor(a, s).Ok? && KeyFor(a, s) == KeyFor(b, t)
    ensures a.metric == b.metric && a.scope == b.scope && s.tenantId == t.tenantId
    ensures a.scope.UserScope? ==> s.userId == t.userId
    ensures a.scope.ResourceScope? ==> s.resourceType == t.resourceType && s.resourceId == t.resourceId
  {
    hide CacheKey, Blank;
    var p, q := PartsFor(s, a.scope).value, PartsFor(t, b.scope).value;
    CacheKeyInjective(["quota", a.metric] + p, ["quota", b.metric] + q);
    assert p == (["quota", a.metric] + p)[2..] == (["quota", b.metric] + q)[2..] == q;
    assert a.metric == (["quota", a.metric] + p)[1] == b.metric;
    SamePrefix("tenant_id=", s.tenantId, t.tenantId);
    match a.scope
    case TenantScope =>
    case UserScope =>
      SamePrefix("user_id=", s.userId.value, t.userId.value);
    case ResourceScope =>
      SamePrefix("resource_type=", s.resourceType.value, t.resourceType.value);
      SamePrefix("resource_id=", s.resourceId.value, t.resourceId.value);
  }

  lemma SamePrefix(prefix: string, a: string, b: string)
    ensures prefix + a == prefix + b ==> a == b
  {
    assert (prefix + a)[|prefix|..] == a && (prefix + b)[|prefix|..] == b;
  }

  lemma KeyNotBlank(rule: Rule, subject: Subject)
    requires KeyFor(rule, subject).Ok?
    ensures !Blank(KeyFor(rule, subject).value)
  {
    assert !IsSpace(KeyFor(rule, subject).value[0]);
  }

  // ----- the service -----

  datatype Reservation = Reservation(rule: Rule, subject: Subject, amount: int)

  datatype Decision = Decision(allowed: bool, key: string, limit: int, current: int, requested: int, projected: int, remaining: int)

  function DecisionOf(rule: Rule, key: string, current: int, amount: int): Decision {
    Decision(current + amount <= rule.limit, key, rule.limit, current, amount, current + amount,
             Max(rule.limit - (current + amount), 0))
  }

  function Reserved(kind: StoreKind, usage: map<string, nat>, r: Reservation): (map<string, nat>, Result<Decision>) {
    var key := KeyFor(r.rule, r.subject);
    if r.amount <= 0 then (usage, Err(ValidationError))
    else if key.Err? then (usage, Err(key.error))
    else
      var (after, projected) := Effect(kind, usage, Reserve(key.value, r.amount, r.rule.limit));
      if projected.Err? then (after, Err(projected.error))
      else if projected.value.Some? then (after, Ok(DecisionOf(r.rule, key.value, projected.value.value - r.amount, r.amount)))
      else (after, Ok(DecisionOf(r.rule, key.value, UsageOf(after, key.value), r.amount)))
  }

  function RequireReserved(kind: StoreKind, usage: map<string, nat>, r: Reservation): (map<string, nat>,
                           Result<Decision>) {
    var (after, decision) := Reserved(kind, usage, r);
    (after, if decision.Ok? && !decision.value.allowed then Err(QuotaExceeded) else decision)
  }

  function Released(kind: StoreKind, usage: map<string, nat>, r: Reservation): (map<string, nat>, Option<AppError>) {
    var key := KeyFor(r.rule, r.subject);
    if r.amount <= 0 then (usage, Some(ValidationError))
    else if key.Err? then (usage, Some(key.error))
    else
      var (after, reply) := Effect(kind, usage, Release(key.value, r.amount));
      (after, if reply.Err? then Some(reply.error) else None)
  }

  /** What must hold of a reservation before its usage is looked at. */
  predicate Chargeable(r: Reservation) {
    r.amount > 0 && KeyFor(r.rule, r.subject).Ok?
  }

  function KeyOf(r: Reservation): string
    requires Chargeable(r)
  {
    KeyFor(r.rule, r.subject).value
  }

  /** What the service tells the caller about a reservation, allowed or not: the usage before it, what it would come to,
      and how much of the limit that leaves. Only an allowed one is added. */
  lemma ReserveReports(kind: StoreKind, usage: map<string, nat>, r: Reservation)
    requires Chargeable(r)
    ensures var (after, decision) := Reserved(kind, usage, r);
            var key, used := KeyOf(r), UsageOf(usage, KeyOf(r));
            && decision.Ok?
            && decision.value.key == key && decision.value.limit == r.rule.limit
            && decision.value.current == used && decision.value.requested == r.amount
            && decision.value.projected == used + r.amount
            && (decision.value.allowed <==> used + r.amount <= r.rule.limit)
            && (decision.value.allowed ==>
                  && decision.value.projected + decision.value.remaining == r.rule.limit
                  && after == usage[key := decision.value.projected])
            && (!decision.value.allowed ==> decision.value.remaining == 0 && after == usage)
  {
    hide KeyFor;
    KeyNotBlank(r.rule, r.subject);
  }

  /** Without a key, or without a positive amount, neither a reservation nor a release reaches the store. */
  lemma NotChargeable(kind: StoreKind, usage: map<string, nat>, r: Reservation)
    requires !Chargeable(r)
    ensures Reserved(kind, usage, r) == (usage, Err(ValidationError))
    ensures Released(kind, usage, r) == (usage, Some(ValidationError))
  {
    hide KeyFor;
    KeyErrors(r.rule, r.subject);
  }

  /** A reservation goes through exactly when it is chargeable and fits under its limit; then its key's usage grows by
      its amount, and otherwise nothing changes. Both stores agree. */
  lemma RequireExact(kind: StoreKind, usage: map<string, nat>, r: Reservation)
    ensures var (after, decision) := RequireReserved(kind, usage, r);
            var fits := Chargeable(r) && UsageOf(usage, KeyOf(r)) + r.amount <= r.rule.limit;
            && (decision.Ok? <==> fits)
            && after == (if fits then usage[KeyOf(r) := UsageOf(usage, KeyOf(r)) + r.amount] else usage)
            && (fits ==> decision == Ok(DecisionOf(r.rule, KeyOf(r), UsageOf(usage, KeyOf(r)), r.amount)))
            && (Chargeable(r) && !fits ==> decision == Err(QuotaExceeded))
            && (!Chargeable(r) ==> decision == Err(ValidationError))
  {
    hide KeyFor;
    if KeyFor(r.rule, r.subject).Ok? {
      KeyNotBlank(r.rule, r.subject);
    } else {
      KeyErrors(r.rule, r.subject);
    }
  }

  lemma KeyErrors(rule: Rule, subject: Subject)
    ensures KeyFor(rule, subject).Err? ==> KeyFor(rule, subject).error == ValidationError
  {
  }

  lemma ReleaseExact(kind: StoreKind, usage: map<string, nat>, r: Reservation, key: string)
    requires Chargeable(r)
    ensures Released(kind, usage, r).1 == None
    ensures UsageOf(Released(kind, usage, r).0, key) ==
            if key == KeyOf(r) then Max(UsageOf(usage, key) - r.amount, 0) else UsageOf(usage, key)
  {
    hide KeyFor;
    KeyNotBlank(r.rule, r.subject);
  }

  // ----- the gate -----

  /** The gate part-way through its reservations: one decision per reservation made so far, or the error that ended
      the loop. */
  datatype Reserving = Reserving(usage: map<string, nat>, decisions: seq<Decision>, error: Option<AppError>)

  function ReserveFirst(kind: StoreKind, usage: map<string, nat>, rs: seq<Reservation>, n: nat): Reserving
    requires n <= |rs|
  {
    if n == 0 then Reserving(usage, [], None)
    else
      var g := ReserveFirst(kind, usage, rs, n - 1);
      if g.error.Some? then g
      else
        var (after, decision) := RequireReserved(kind, g.usage, rs[n - 1]);
        if decision.Ok? then Reserving(after, g.decisions + [decision.value], None)
        else Reserving(after, g.decisions, Some(decision.error))
  }

  /** Releases the last reservation first, up to the first release that raises. */
  function ReleaseReversed(kind: StoreKind, usage: map<string, nat>, rs: seq<Reservation>): (map<string, nat>,
                           Option<AppError>)
    decreases |rs|
  {
    if rs == [] then (usage, None)
    else
      var (after, error) := Released(kind, usage, rs[|rs| - 1]);
      if error.Some? then (after, error) else ReleaseReversed(kind, after, rs[..|rs| - 1])
  }

  datatype MutationResult<V> = MutationResult(value: V, reservations: seq<Reservation>, decisions: seq<Decision>)

  /** Gives back what was reserved and raises: the error at hand, or the one that a release raised in its place. */
  function RollBack(kind: StoreKind, usage: map<string, nat>, rs: seq<Reservation>, error: AppError): (map<string, nat>,
                    AppError) {
    var (after, raised) := ReleaseReversed(kind, usage, rs);
    (after, if raised.Some? then raised.value else error)
  }

  /** `handler` is what the handler returns or raises; it leaves the usage store alone. */
  function Ran<V>(kind: StoreKind, usage: map<string, nat>, rs: seq<Reservation>, handler: Result<V>)
    : (map<string, nat>, Result<MutationResult<V>>)
  {
    var g := ReserveFirst(kind, usage, rs, |rs|);
    if g.error.Some? || handler.Err? then
      var reserved := rs[..Min(|g.decisions|, |rs|)];
      var (after, error) := RollBack(kind, g.usage, reserved, if g.error.Some? then g.error.value else handler.error);
      (after, Err(error))
    else (g.usage, Ok(MutationResult(handler.value, rs, g.decisions)))
  }

  /** The amount that the reservations take from one key. */
  function Demand(rs: seq<Reservation>, key: string): nat
    decreases |rs|
  {
    if rs == [] then 0
    else
      var r := rs[|rs| - 1];
      Demand(rs[..|rs| - 1], key) + if Chargeable(r) && KeyOf(r) == key then r.amount else 0
  }

  lemma DemandPrefix(rs: seq<Reservation>, n: nat, key: string)
    requires n < |rs|
    ensures Demand(rs[..n + 1], key) == Demand(rs[..n], key) + if Chargeable(rs[n]) && KeyOf(rs[n]) == key then rs[n].amount else 0
  {
    assert rs[..n + 1][..n] == rs[..n];
  }

  /** The i-th reservation is chargeable and fits on top of everything the earlier ones took from its key. */
  predicate Fits(usage: map<string, nat>, rs: seq<Reservation>, i: nat)
    requires i < |rs|
  {
    Chargeable(rs[i]) && UsageOf(usage, KeyOf(rs[i])) + Demand(rs[..i + 1], KeyOf(rs[i])) <= rs[i].rule.limit
  }

  /** The reservation loop stops at the first reservation that does not fit; until then every key has its demand. */
  lemma {:induction false} ReservesWhatFits(kind: StoreKind, usage: map<string, nat>, rs: seq<Reservation>, n: nat)
    requires n <= |rs|
    ensures var g := ReserveFirst(kind, usage, rs, n);
            && |g.decisions| <= n
            && (g.error.None? <==> |g.decisions| == n)
            && (forall i | 0 <= i < |g.decisions| :: Fits(usage, rs, i))
            && (g.error.Some? ==> !Fits(usage, rs, |g.decisions|))
            && forall key :: UsageOf(g.usage, key) == UsageOf(usage, key) + Demand(rs[..|g.decisions|], key)
  {
    hide Chargeable, KeyOf, RequireReserved;
    if n == 0 {
      assert rs[..0] == [];
    } else {
      ReservesWhatFits(kind, usage, rs, n - 1);
      var before := ReserveFirst(kind, usage, rs, n - 1);
      if before.error.None? {
        StepFits(kind, usage, rs, n - 1, before);
        var decision := RequireReserved(kind, before.usage, rs[n - 1]).1;
        if decision.Ok? {
          assert ReserveFirst(kind, usage, rs, n).decisions == before.decisions + [decision.value];
          assert rs[..n - 1 + 1] == rs[..n];
        }
      }
    }
  }

  /** One reservation on top of n that went through. */
  lemma StepFits(kind: StoreKind, usage: map<string, nat>, rs: seq<Reservation>, n: nat, before: Reserving)
    requires n < |rs| && forall key :: UsageOf(before.usage, key) == UsageOf(usage, key) + Demand(rs[..n], key)
    ensures var (after, decision) := RequireReserved(kind, before.usage, rs[n]);
            && (decision.Ok? <==> Fits(usage, rs, n))
            && (decision.Ok? ==> forall key :: UsageOf(after, key) == UsageOf(usage, key) + Demand(rs[..n + 1], key))
            && (decision.Err? ==> after == before.usage)
  {
    hide Chargeable, KeyOf, RequireReserved, Demand;
    RequireExact(kind, before.usage, rs[n]);
    forall key
      ensures Demand(rs[..n + 1], key) == Demand(rs[..n], key) + if Chargeable(rs[n]) && KeyOf(rs[n]) == key then rs[n].amount else 0
    {
      DemandPrefix(rs, n, key);
    }
  }

  /** Releasing in reverse takes each key's demand off its usage, stopping at zero, and raises nothing. */
  lemma {:induction false} ReleaseTakesDemand(kind: StoreKind, usage: map<string, nat>, rs: seq<Reservation>, key: string)
    requires forall i | 0 <= i < |rs| :: Chargeable(rs[i])
    ensures ReleaseReversed(kind, usage, rs).1 == None
    ensures UsageOf(ReleaseReversed(kind, usage, rs).0, key) == Max(UsageOf(usage, key) - Demand(rs, key), 0)
    decreases |rs|
  {
    hide Chargeable, KeyOf, Released;
    if rs != [] {
      var n := |rs| - 1;
      ReleaseExact(kind, usage, rs[n], key);
      AmountPositive(rs[n]);
      ReleaseTakesDemand(kind, Released(kind, usage, rs[n]).0, rs[..n], key);
    }
  }

  /** A release that cannot be charged ends the loop: what comes after it in the list was given back, what comes before
      it was not. */
  lemma {:induction false} ReleaseStopsAt(kind: StoreKind, usage: map<string, nat>, rs: seq<Reservation>, i: nat)
    requires i < |rs| && !Chargeable(rs[i]) && forall j | i < j < |rs| :: Chargeable(rs[j])
    ensures ReleaseReversed(kind, usage, rs[i + 1..]).1 == None
    ensures ReleaseReversed(kind, usage, rs) == (ReleaseReversed(kind, usage, rs[i + 1..]).0, Some(ValidationError))
    decreases |rs|
  {
    hide Chargeable, KeyOf, Released;
    var n := |rs| - 1;
    if i == n {
      assert rs[i + 1..] == [];
      NotChargeable(kind, usage, rs[n]);
    } else {
      ReleaseExact(kind, usage, rs[n], "");
      ReleaseStopsAt(kind, Released(kind, usage, rs[n]).0, rs[..n], i);
      assert rs[..n][i + 1..] == rs[i + 1..][..n - i - 1];
      assert rs[i + 1..][n - i - 1] == rs[n];
    }
  }

  lemma AmountPositive(r: Reservation)
    requires Chargeable(r)
    ensures r.amount > 0
  {
  }

  /** Some release in the loop finds less usage than it gives back, so that the clamp at zero fires. */
  predicate Clamps(kind: StoreKind, usage: map<string, nat>, rs: seq<Reservation>)
    decreases |rs|
  {
    rs != [] &&
    var r := rs[|rs| - 1];
    || (Chargeable(r) && UsageOf(usage, KeyOf(r)) < r.amount)
    || Clamps(kind, Released(kind, usage, r).0, rs[..|rs| - 1])
  }

  /** The clamp fires only for usage that the reservations do not account for. */
  lemma {:induction false} NoClampWithinUsage(kind: StoreKind, usage: map<string, nat>, rs: seq<Reservation>)
    requires forall i | 0 <= i < |rs| :: Chargeable(rs[i])
    requires forall key :: Demand(rs, key) <= UsageOf(usage, key)
    ensures !Clamps(kind, usage, rs)
    decreases |rs|
  {
    hide Chargeable, KeyOf, Released;
    if rs != [] {
      var n := |rs| - 1;
      assert Demand(rs, KeyOf(rs[n])) <= UsageOf(usage, KeyOf(rs[n]));
      forall key
        ensures Demand(rs[..n], key) <= UsageOf(Released(kind, usage, rs[n]).0, key)
      {
        assert Demand(rs, key) <= UsageOf(usage, key);
        ReleaseExact(kind, usage, rs[n], key);
      }
      NoClampWithinUsage(kind, Released(kind, usage, rs[n]).0, rs[..n]);
    }
  }

  /** The gate goes through exactly when every reservation fits and the handler returns. */
  lemma RunOkIff<V>(kind: StoreKind, usage: map<string, nat>, rs: seq<Reservation>, handler: Result<V>)
    ensures Ran(kind, usage, rs, handler).1.Ok? <==> handler.Ok? && forall i | 0 <= i < |rs| :: Fits(usage, rs, i)
  {
    hide Fits;
    ReservesWhatFits(kind, usage, rs, |rs|);
  }

  /** A run that went through hands back what the handler returned, and one decision per reservation, in order. */
  lemma SuccessReports<V>(kind: StoreKind, usage: map<string, nat>, rs: seq<Reservation>, handler: Result<V>)
    requires Ran(kind, usage, rs, handler).1.Ok?
    ensures var result := Ran(kind, usage, rs, handler).1.value;
            && Ok(result.value) == handler && result.reservations == rs && |result.decisions| == |rs|
            && forall i | 0 <= i < |rs| :: Answers(usage, rs, i, result.decisions[i])
  {
    hide Fits, Answers;
    ReservesWhatFits(kind, usage, rs, |rs|);
    DecisionsAnswer(kind, usage, rs, |rs|);
  }

  /** A run that went through raises every key by the sum of its amounts, and no key ends above its limits: its usage
      is the old one, or within the limit of one of the rules reserved for it. */
  lemma SuccessAddsUp<V>(kind: StoreKind, usage: map<string, nat>, rs: seq<Reservation>, handler: Result<V>, key: string)
    requires Ran(kind, usage, rs, handler).1.Ok?
    ensures var after := Ran(kind, usage, rs, handler).0;
            && UsageOf(after, key) == UsageOf(usage, key) + Demand(rs, key)
            && (UsageOf(after, key) == UsageOf(usage, key)
                || exists i | 0 <= i < |rs| :: Chargeable(rs[i]) && KeyOf(rs[i]) == key && UsageOf(after, key) <= rs[i].rule.limit)
  {
    hide Fits;
    ReservesWhatFits(kind, usage, rs, |rs|);
    assert rs[..|rs|] == rs;
    if Demand(rs, key) > 0 {
      var i := LastFor(rs, |rs|, key);
      assert Fits(usage, rs, i);
      FitsWithin(usage, rs, i);
    }
  }

  lemma FitsWithin(usage: map<string, nat>, rs: seq<Reservation>, i: nat)
    requires i < |rs| && Fits(usage, rs, i)
    ensures Chargeable(rs[i]) && UsageOf(usage, KeyOf(rs[i])) + Demand(rs[..i + 1], KeyOf(rs[i])) <= rs[i].rule.limit
  {
  }

  /** The last reservation for a key carries the key's whole demand. */
  lemma {:induction false} LastFor(rs: seq<Reservation>, n: nat, key: string) returns (i: nat)
    requires n <= |rs| && Demand(rs[..n], key) > 0
    ensures i < n && Chargeable(rs[i]) && KeyOf(rs[i]) == key && Demand(rs[..i + 1], key) == Demand(rs[..n], key)
  {
    hide Chargeable, KeyOf;
    assert n > 0;
    DemandPrefix(rs, n - 1, key);
    if Chargeable(rs[n - 1]) && KeyOf(rs[n - 1]) == key {
      i := n - 1;
    } else {
      i := LastFor(rs, n - 1, key);
    }
  }

  /** Each decision of the loop is about its own reservation, on top of what the earlier ones took from its key. */
  predicate Answers(usage: map<string, nat>, rs: seq<Reservation>, i: nat, decision: Decision)
    requires i < |rs|
  {
    && Chargeable(rs[i])
    && decision.allowed && decision.key == KeyOf(rs[i]) && decision.requested == rs[i].amount
    && decision.limit == rs[i].rule.limit
    && decision.current == UsageOf(usage, KeyOf(rs[i])) + Demand(rs[..i], KeyOf(rs[i]))
    && decision.projected == decision.current + rs[i].amount
  }

  lemma {:induction false} DecisionsAnswer(kind: StoreKind, usage: map<string, nat>, rs: seq<Reservation>, n: nat)
    requires n <= |rs|
    ensures var g := ReserveFirst(kind, usage, rs, n);
            |g.decisions| <= n && forall i | 0 <= i < |g.decisions| :: Answers(usage, rs, i, g.decisions[i])
    ensures var g := ReserveFirst(kind, usage, rs, n);
            g.error.Some? ==>
              |g.decisions| < n && g.error == Some(if Chargeable(rs[|g.decisions|]) then QuotaExceeded else ValidationError)
  {
    hide Chargeable, KeyOf, RequireReserved, Demand, UsageOf;
    if n > 0 {
      DecisionsAnswer(kind, usage, rs, n - 1);
      var before := ReserveFirst(kind, usage, rs, n - 1);
      ReservesWhatFits(kind, usage, rs, n - 1);
      if before.error.None? {
        RequireExact(kind, before.usage, rs[n - 1]);
        var decision := RequireReserved(kind, before.usage, rs[n - 1]).1;
        if decision.Ok? {
          AllowedAnswers(kind, usage, rs, n - 1, before);
        }
      }
    }
  }

  lemma AllowedAnswers(kind: StoreKind, usage: map<string, nat>, rs: seq<Reservation>, n: nat, before: Reserving)
    requires n < |rs| && RequireReserved(kind, before.usage, rs[n]).1.Ok?
    requires forall key :: UsageOf(before.usage, key) == UsageOf(usage, key) + Demand(rs[..n], key)
    ensures Answers(usage, rs, n, RequireReserved(kind, before.usage, rs[n]).1.value)
  {
    hide KeyFor, Demand;
    RequireExact(kind, before.usage, rs[n]);
  }

  /** What the reservation loop took can be given back without a clamp, and giving it back restores the usage. */
  lemma RollBackRestores(kind: StoreKind, usage: map<string, nat>, rs: seq<Reservation>)
    ensures var g := ReserveFirst(kind, usage, rs, |rs|);
            && |g.decisions| <= |rs|
            && ReleaseReversed(kind, g.usage, rs[..|g.decisions|]).1 == None
            && SameUsage(ReleaseReversed(kind, g.usage, rs[..|g.decisions|]).0, usage)
            && !Clamps(kind, g.usage, rs[..|g.decisions|])
  {
    hide Fits, Chargeable, ReserveFirst, ReleaseReversed, Clamps, Demand, UsageOf;
    ReservesWhatFits(kind, usage, rs, |rs|);
    var g := ReserveFirst(kind, usage, rs, |rs|);
    var reserved := rs[..|g.decisions|];
    forall i | 0 <= i < |reserved|
      ensures Chargeable(reserved[i])
    {
      assert Fits(usage, rs, i);
      FitsWithin(usage, rs, i);
    }
    forall key
      ensures Demand(reserved, key) <= UsageOf(g.usage, key)
      ensures UsageOf(ReleaseReversed(kind, g.usage, reserved).0, key) == UsageOf(usage, key)
    {
      ReleaseTakesDemand(kind, g.usage, reserved, key);
    }
    NoClampWithinUsage(kind, g.usage, reserved);
    ReleaseTakesDemand(kind, g.usage, reserved, "");
  }

  lemma RaisesTheCause<V>(kind: StoreKind, usage: map<string, nat>, rs: seq<Reservation>, handler: Result<V>)
    requires Ran(kind, usage, rs, handler).1.Err?
    ensures SameUsage(Ran(kind, usage, rs, handler).0, usage)
    ensures var g := ReserveFirst(kind, usage, rs, |rs|);
            && |g.decisions| <= |rs|
            && !Clamps(kind, g.usage, rs[..|g.decisions|])
            && Ran(kind, usage, rs, handler).1.error == if g.error.Some? then g.error.value else handler.error
  {
    hide SameUsage, ReserveFirst, ReleaseReversed, Clamps;
    RollBackRestores(kind, usage, rs);
  }

  /** A refused reservation, or a handler that raises, leaves every key's usage exactly as it was, no release is
      clamped, and the caller sees the error that started the roll-back: the one of the first reservation that does
      not fit, or else the handler's own. */
  lemma FailureRestores<V>(kind: StoreKind, usage: map<string, nat>, rs: seq<Reservation>, handler: Result<V>)
    requires Ran(kind, usage, rs, handler).1.Err?
    ensures SameUsage(Ran(kind, usage, rs, handler).0, usage)
    ensures var g := ReserveFirst(kind, usage, rs, |rs|);
            |g.decisions| <= |rs| && !Clamps(kind, g.usage, rs[..|g.decisions|])
    ensures forall i | 0 <= i < |rs| && !Fits(usage, rs, i) && (forall j | 0 <= j < i :: Fits(usage, rs, j)) ::
              Ran(kind, usage, rs, handler).1 == Err(if Chargeable(rs[i]) then QuotaExceeded else ValidationError)
    ensures (forall i | 0 <= i < |rs| :: Fits(usage, rs, i)) ==> handler == Err(Ran(kind, usage, rs, handler).1.error)
  {
    hide SameUsage, ReserveFirst, ReleaseReversed, Clamps, Fits, Chargeable, Demand, Answers;
    RaisesTheCause(kind, usage, rs, handler);
    ReservesWhatFits(kind, usage, rs, |rs|);
    DecisionsAnswer(kind, usage, rs, |rs|);
  }

  /** The gate answers the same over either store. */
  lemma {:induction false} ReservesAgree(memory: map<string, nat>, rows: map<string, nat>, rs: seq<Reservation>, n: nat)
    requires n <= |rs| && SameUsage(memory, rows)
    ensures var a, b := ReserveFirst(Memory, memory, rs, n), ReserveFirst(Database, rows, rs, n);
            a.decisions == b.decisions && a.error == b.error && SameUsage(a.usage, b.usage)
  {
    hide RequireReserved, Chargeable, KeyOf;
    if n > 0 {
      ReservesAgree(memory, rows, rs, n - 1);
      var a, b := ReserveFirst(Memory, memory, rs, n - 1), ReserveFirst(Database, rows, rs, n - 1);
      var r := rs[n - 1];
      RequireExact(Memory, a.usage, r);
      RequireExact(Database, b.usage, r);
      if Chargeable(r) {
        assert UsageOf(a.usage, KeyOf(r)) == UsageOf(b.usage, KeyOf(r));
      }
      forall key
        ensures UsageOf(RequireReserved(Memory, a.usage, r).0, key) == UsageOf(RequireReserved(Database, b.usage, r).0, key)
      {
        assert UsageOf(a.usage, key) == UsageOf(b.usage, key);
      }
    }
  }

  lemma RunsAgree<V>(memory: map<string, nat>, rows: map<string, nat>, rs: seq<Reservation>, handler: Result<V>)
    requires SameUsage(memory, rows)
    ensures Ran(Memory, memory, rs, handler).1 == Ran(Database, rows, rs, handler).1
    ensures SameUsage(Ran(Memory, memory, rs, handler).0, Ran(Database, rows, rs, handler).0)
  {
    hide Fits, ReserveFirst, Clamps, RollBack;
    ReservesAgree(memory, rows, rs, |rs|);
    if Ran(Memory, memory, rs, handler).1.Err? {
      RaisesTheCause(Memory, memory, rs, handler);
      RaisesTheCause(Database, rows, rs, handler);
      forall key
        ensures UsageOf(Ran(Memory, memory, rs, handler).0, key) == UsageOf(Ran(Database, rows, rs, handler).0, key)
      {
        assert UsageOf(memory, key) == UsageOf(rows, key);
      }
    }
  }

  // ----- the service and the gate over the memory store -----

  class QuotaService {
    const store: MemoryQuotaUsageStore

    constructor (store: MemoryQuotaUsageStore)
      ensures this.store == store
    {
      this.store := store;
    }

    method Reserve(r: Reservation) returns (decision: Result<Decision>)
      modifies store
      ensures (store.usage, decision) == Reserved(Memory, old(store.usage), r)
    {
      hide KeyFor;
      if r.amount <= 0 {
        return Err(ValidationError);
      }
      var key := KeyFor(r.rule, r.subject);
      if key.Err? {
        return Err(key.error);
      }
      var projected := store.Reserve(key.value, r.amount, r.rule.limit);
      if projected.Err? {
        return Err(projected.error);
      }
      if projected.value.Some? {
        return Ok(DecisionOf(r.rule, key.value, projected.value.value - r.amount, r.amount));
      }
      var current := store.GetUsage(key.value);
      decision := Ok(DecisionOf(r.rule, key.value, current.value, r.amount));
    }

    method RequireReserve(r: Reservation) returns (decision: Result<Decision>)
      modifies store
      ensures (store.usage, decision) == RequireReserved(Memory, old(store.usage), r)
    {
      hide Reserved;
      decision := Reserve(r);
      if decision.Ok? && !decision.value.allowed {
        decision := Err(QuotaExceeded);
      }
    }

    method Release(r: Reservation) returns (error: Option<AppError>)
      modifies store
      ensures (store.usage, error) == Released(Memory, old(store.usage), r)
    {
      hide KeyFor;
      if r.amount <= 0 {
        return Some(ValidationError);
      }
      var key := KeyFor(r.rule, r.subject);
      if key.Err? {
        return Some(key.error);
      }
      var reply := store.Release(key.value, r.amount);
      error := if reply.Err? then Some(reply.error) else None;
    }
  }

  class QuotaMutationGate {
    const service: QuotaService

    constructor (service: QuotaService)
      ensures this.service == service
    {
      this.service := service;
    }

    method ReleaseInReverse(rs: seq<Reservation>) returns (error: Option<AppError>)
      modifies service.store
      ensures (service.store.usage, error) == ReleaseReversed(Memory, old(service.store.usage), rs)
    {
      hide Released;
      var n := |rs|;
      assert rs[..n] == rs;
      while n > 0
        invariant 0 <= n <= |rs|
        invariant ReleaseReversed(Memory, service.store.usage, rs[..n]) == ReleaseReversed(Memory, old(service.store.usage), rs)
      {
        assert rs[..n][..n - 1] == rs[..n - 1];
        n := n - 1;
        error := service.Release(rs[n]);
        if error.Some? {
          return;
        }
      }
      error := None;
    }

    method ReserveAndRun<V>(rs: seq<Reservation>, handler: Result<V>) returns (result: Result<MutationResult<V>>)
      modifies service.store
      ensures (service.store.usage, result) == Ran(Memory, old(service.store.usage), rs, handler)
    {
      hide RequireReserved, ReleaseReversed;
      var decisions := [];
      var reserved := [];
      ghost var start := service.store.usage;
      for n := 0 to |rs|
        invariant ReserveFirst(Memory, start, rs, n) == Reserving(service.store.usage, decisions, None)
        invariant reserved == rs[..n] && |decisions| == n
      {
        var decision := service.RequireReserve(rs[n]);
        if decision.Err? {
          ErrorSticks(Memory, start, rs, n + 1, |rs|);
          var raised := ReleaseInReverse(reserved);
          return Err(if raised.Some? then raised.value else decision.error);
        }
        decisions := decisions + [decision.value];
        reserved := reserved + [rs[n]];
      }
      if handler.Err? {
        var raised := ReleaseInReverse(reserved);
        return Err(if raised.Some? then raised.value else handler.error);
      }
      result := Ok(MutationResult(handler.value, rs, decisions));
    }
  }

  lemma {:induction false} ErrorSticks(kind: StoreKind, usage: map<string, nat>, rs: seq<Reservation>, k: nat, n: nat)
    requires k <= n <= |rs| && ReserveFirst(kind, usage, rs, k).error.Some?
    ensures ReserveFirst(kind, usage, rs, n) == ReserveFirst(kind, usage, rs, k)
  {
    hide RequireReserved;
    if k < n {
      ErrorSticks(kind, usage, rs, k, n - 1);
    }
  }
}
