/** The event registry: handler registration, payload validation, and the dispatch of one event to its handlers
    in order, each call and each side effect guarded by an idempotency record of its own. */
module Events {
  import opened Common
  import opened EventSchemas
  import opened Idempotency
  import opened Keys

  datatype Envelope = Envelope(
    eventId: string,
    eventType: string,
    eventVersion: int,
    tenantId: string,
    payload: map<string, Value>)

  /** What a call of a handler or of a side effect comes to. */
  datatype CallResult = Returns(body: string) | Raises(name: string, message: string)

  /** A keyed effect that a handler asks for. */
  datatype EffectCall = EffectCall(effectKey: string, payload: string, result: CallResult, now: int)

  /** What a handler does when it is called: the effects it asks for, in order, and how it ends. */
  datatype HandlerRun = HandlerRun(effects: seq<EffectCall>, end: CallResult)

  const CLAIM_TTL: int := 86_400_000_000
  const CLAIM_LOCK: int := 60_000_000

  // ----- scopes and request hashes -----

  /** `str(payload.get("actor_id") or "__system__")`. */
  function ActorOf(envelope: Envelope): string {
    if "actor_id" !in envelope.payload then "__system__"
    else
      match envelope.payload["actor_id"]
      case Text(s) => if s == "" then "__system__" else s
      case Integer(n) => if n == 0 then "__system__" else Decimal(n)
      case Boolean(b) => if b then "True" else "__system__"
      case Float(x, text) => if x == 0.0 then "__system__" else text
      case Dict(size, text) => if size == 0 then "__system__" else text
      case List(size, text) => if size == 0 then "__system__" else text
      case Null => "__system__"
  }

  /** The values that count as false. */
  predicate Falsy(v: Value) {
    || v == Text("") || v == Integer(0) || v == Boolean(false) || v == Null
    || (v.Float? && v.r == 0.0) || ((v.Dict? || v.List?) && v.size == 0)
  }

  /** The actor is the payload's own one, spelled out, unless it is missing or counts as false. */
  lemma ActorIsSpelled(envelope: Envelope, v: Value)
    ensures "actor_id" !in envelope.payload ==> ActorOf(envelope) == "__system__"
    ensures "actor_id" in envelope.payload && envelope.payload["actor_id"] == v ==>
              && (Falsy(v) ==> ActorOf(envelope) == "__system__")
              && (!Falsy(v) ==>
                    && (v.Text? ==> ActorOf(envelope) == v.s)
                    && (v.Integer? ==> ActorOf(envelope) == Decimal(v.n))
                    && (v.Boolean? ==> ActorOf(envelope) == "True")
                    && (v.Float? || v.Dict? || v.List? ==> ActorOf(envelope) == v.text))
  {
  }

  function RoutePrefix(kind: string, envelope: Envelope): string {
    kind + envelope.eventType + ":v" + Decimal(envelope.eventVersion) + ":"
  }

  function HandlerRoute(envelope: Envelope, handlerKey: string): string {
    RoutePrefix("outbox:", envelope) + handlerKey
  }

  function SideEffectRoute(envelope: Envelope, handlerKey: string, effectKey: string): string {
    RoutePrefix("outbox-side-effect:", envelope) + (handlerKey + ":" + effectKey)
  }

  function HandlerScope(envelope: Envelope, handlerKey: string): ScopeKey {
    ScopeKey(envelope.tenantId, ActorOf(envelope), HandlerRoute(envelope, handlerKey), envelope.eventId)
  }

  function SideEffectScope(envelope: Envelope, handlerKey: string, effectKey: string): ScopeKey {
    ScopeKey(envelope.tenantId, ActorOf(envelope), SideEffectRoute(envelope, handlerKey, effectKey), envelope.eventId)
  }

  /** The columns under which a handler's and an effect's record are stored. */
  lemma ScopeColumns(envelope: Envelope, handlerKey: string, effectKey: string)
    ensures var h, e := HandlerScope(envelope, handlerKey), SideEffectScope(envelope, handlerKey, effectKey);
            var version := ":v" + Decimal(envelope.eventVersion) + ":";
            && h.tenantId == e.tenantId == envelope.tenantId && h.userId == e.userId == ActorOf(envelope)
            && h.idempotencyKey == e.idempotencyKey == envelope.eventId
            && h.route == "outbox:" + envelope.eventType + version + handlerKey
            && e.route == "outbox-side-effect:" + envelope.eventType + version + handlerKey + ":" + effectKey
  {
    var version := ":v" + Decimal(envelope.eventVersion) + ":";
    assert RoutePrefix("outbox:", envelope) == "outbox:" + envelope.eventType + version;
    assert RoutePrefix("outbox-side-effect:", envelope) == "outbox-side-effect:" + envelope.eventType + version;
    assert SideEffectRoute(envelope, handlerKey, effectKey) ==
           "outbox-side-effect:" + envelope.eventType + version + handlerKey + ":" + effectKey;
  }

  /** A digest is modelled by an unambiguous spelling of the fields it digests. */
  function Digest(fields: seq<string>): string
    requires fields != []
  {
    "{" + Join(QuoteAll(fields)) + "}"
  }

  function QuoteAll(fields: seq<string>): (quoted: seq<string>)
    ensures |quoted| == |fields|
    ensures forall i | 0 <= i < |fields| :: quoted[i] == Quote(fields[i])
  {
    if fields == [] then [] else [Quote(fields[0])] + QuoteAll(fields[1..])
  }

  function HandlerRequestHash(envelope: Envelope, handlerKey: string): string {
    Digest([envelope.eventId, envelope.eventType, Decimal(envelope.eventVersion), handlerKey])
  }

  function SideEffectRequestHash(envelope: Envelope, handlerKey: string, effectKey: string, payload: string): string {
    Digest([envelope.eventId, envelope.eventType, Decimal(envelope.eventVersion), handlerKey, effectKey, payload])
  }

  lemma DigestInjective(a: seq<string>, b: seq<string>)
    requires a != [] && b != [] && Digest(a) == Digest(b)
    ensures a == b
  {
    var qa, qb := QuoteAll(a), QuoteAll(b);
    forall i | 0 <= i < |a| ensures NoColon(qa[i]) { QuoteHasNoColon(a[i]); }
    forall i | 0 <= i < |b| ensures NoColon(qb[i]) { QuoteHasNoColon(b[i]); }
    assert Digest(a)[1..|Digest(a)| - 1] == Join(qa) && Digest(b)[1..|Digest(b)| - 1] == Join(qb);
    JoinInjective(qa, qb);
    forall i | 0 <= i < |a| ensures a[i] == b[i] { QuoteInjective(a[i], b[i]); }
  }

  lemma DigestNotBlank(fields: seq<string>)
    requires fields != []
    ensures !Blank(Digest(fields))
  {
    assert !IsSpace(Digest(fields)[0]);
  }

  lemma HashIsDigest(envelope: Envelope, handlerKey: string)
    ensures HandlerRequestHash(envelope, handlerKey) ==
            Digest([envelope.eventId, envelope.eventType, Decimal(envelope.eventVersion), handlerKey])
  {
  }

  /** A handler's record is of one tenant, actor and event, and within one type and version of one handler. */
  lemma HandlerScopesIdentify(e: Envelope, f: Envelope, a: string, b: string)
    ensures HandlerScope(e, a) == HandlerScope(f, b) ==>
              e.tenantId == f.tenantId && ActorOf(e) == ActorOf(f) && e.eventId == f.eventId
    ensures (e.eventType == f.eventType && e.eventVersion == f.eventVersion && HandlerScope(e, a) == HandlerScope(f, b)) ==> a == b
  {
    var prefix := RoutePrefix("outbox:", e);
    assert (prefix + a)[|prefix|..] == a && (prefix + b)[|prefix|..] == b;
  }

  /** Different handlers of one event never share an idempotency record. */
  lemma HandlerScopesDistinct(envelope: Envelope, a: string, b: string)
    requires a != b
    ensures HandlerScope(envelope, a) != HandlerScope(envelope, b)
  {
    HandlerScopesIdentify(envelope, envelope, a, b);
  }

  /** A side effect's record is of one tenant, actor and event, never a handler's, and within one type and version,
      where handler keys hold no ':', of one handler and one effect. */
  lemma SideEffectScopesIdentify(e: Envelope, f: Envelope, a: string, x: string, b: string, y: string)
    ensures SideEffectScope(e, a, x) != HandlerScope(f, b)
    ensures SideEffectScope(e, a, x) == SideEffectScope(f, b, y) ==>
              e.tenantId == f.tenantId && ActorOf(e) == ActorOf(f) && e.eventId == f.eventId
    ensures (&& e.eventType == f.eventType && e.eventVersion == f.eventVersion && NoColon(a) && NoColon(b)
             && SideEffectScope(e, a, x) == SideEffectScope(f, b, y)) ==> a == b && x == y
  {
    assert SideEffectRoute(e, a, x)[6] == '-';
    assert HandlerRoute(f, b)[6] == ':';
    if e.eventType == f.eventType && e.eventVersion == f.eventVersion && NoColon(a) && NoColon(b)
       && SideEffectScope(e, a, x) == SideEffectScope(f, b, y) {
      var prefix := RoutePrefix("outbox-side-effect:", e);
      assert SideEffectRoute(e, a, x)[|prefix|..] == a + ":" + x;
      assert SideEffectRoute(f, b, y)[|prefix|..] == b + ":" + y;
      ColonSplits(a, b, x, y);
    }
  }

  /** A side effect never shares a record with a handler, nor, where handler keys hold no ':', with another
      handler's effect or another effect. */
  lemma SideEffectScopesDistinct(envelope: Envelope, handlerKey: string, effectKey: string, h: string, e: string)
    ensures SideEffectScope(envelope, handlerKey, effectKey) != HandlerScope(envelope, h)
    ensures NoColon(handlerKey) && NoColon(h) ==>
              (SideEffectScope(envelope, handlerKey, effectKey) == SideEffectScope(envelope, h, e)
               <==> handlerKey == h && effectKey == e)
  {
    SideEffectScopesIdentify(envelope, envelope, handlerKey, effectKey, h, e);
  }

  /** Request hashes tell apart events, types, versions and handlers... */
  lemma HandlerHashInjective(e: Envelope, a: string, f: Envelope, b: string)
    ensures HandlerRequestHash(e, a) == HandlerRequestHash(f, b) <==>
            e.eventId == f.eventId && e.eventType == f.eventType && e.eventVersion == f.eventVersion && a == b
  {
    if HandlerRequestHash(e, a) == HandlerRequestHash(f, b) {
      var x := [e.eventId, e.eventType, Decimal(e.eventVersion), a];
      var y := [f.eventId, f.eventType, Decimal(f.eventVersion), b];
      DigestInjective(x, y);
      assert x[0] == y[0] && x[1] == y[1] && x[2] == y[2] && x[3] == y[3];
      DecimalInjective(e.eventVersion, f.eventVersion);
    }
  }

  /** ...and those of side effects effects and payloads, too. */
  lemma SideEffectHashInjective(e: Envelope, h1: string, e1: string, p1: string, f: Envelope, h2: string, e2: string,
                                p2: string)
    ensures SideEffectRequestHash(e, h1, e1, p1) == SideEffectRequestHash(f, h2, e2, p2) <==>
            && e.eventId == f.eventId && e.eventType == f.eventType && e.eventVersion == f.eventVersion
            && h1 == h2 && e1 == e2 && p1 == p2
  {
    if SideEffectRequestHash(e, h1, e1, p1) == SideEffectRequestHash(f, h2, e2, p2) {
      var x := [e.eventId, e.eventType, Decimal(e.eventVersion), h1, e1, p1];
      var y := [f.eventId, f.eventType, Decimal(f.eventVersion), h2, e2, p2];
      DigestInjective(x, y);
      assert x[0] == y[0] && x[1] == y[1] && x[2] == y[2] && x[3] == y[3] && x[4] == y[4] && x[5] == y[5];
      DecimalInjective(e.eventVersion, f.eventVersion);
    }
  }

  /** Where keys with ':' do make two effects share a record, or one effect is asked for with another payload, the
      second request is refused while the record lives; it is never answered with the first one's body. */
  lemma SharedScopeIsRefused(envelope: Envelope, h1: string, e1: string, p1: string, h2: string, e2: string, p2: string,
                             record: Record, now: int)
    requires (h1, e1, p1) != (h2, e2, p2)
    requires record.requestHash == SideEffectRequestHash(envelope, h1, e1, p1) && record.expiresAt > now
    ensures Claim(Some(record), SideEffectRequestHash(envelope, h2, e2, p2), CLAIM_TTL, CLAIM_LOCK, now, true)
            == (Some(record), Err(KeyConflict))
  {
    SideEffectHashInjective(envelope, h1, e1, p1, envelope, h2, e2, p2);
  }

  // ----- one guarded call -----

  /** What a claim, a call and a mark on one key come to: the record, whether the callee ran, and the error raised. */
  datatype Guarded = Guarded(record: Option<Record>, ran: bool, error: Option<AppError>)

  function GuardedCall(record: Option<Record>, requestHash: string, call: CallResult, body: string, eventId: string,
                       now: int): Guarded {
    var (claimed, outcome) := Claim(record, requestHash, CLAIM_TTL, CLAIM_LOCK, now, true);
    if outcome.Err? then Guarded(record, false, Some(outcome.error))
    else if outcome.value.Replayed? || claimed.None? then Guarded(record, false, None)
    else
      match call
      case Raises(name, message) =>
        Guarded(Some(Fail(claimed.value, name, ErrorBody(message))), true, Some(HandlerRaised(name, message)))
      case Returns(_) =>
        Guarded(Some(Succeed(claimed.value, "OK", body, None, Some(eventId))), true, None)
  }

  function RecordOf(records: map<ScopeKey, Record>, key: ScopeKey): Option<Record> {
    if key in records then Some(records[key]) else None
  }

  function Put(records: map<ScopeKey, Record>, key: ScopeKey, record: Option<Record>): map<ScopeKey, Record> {
    if record.Some? then records[key := record.value] else records
  }

  /** The success of this very request, not expired. */
  predicate LiveSuccess(record: Option<Record>, requestHash: string, now: int) {
    && record.Some? && record.value.status.Succeeded?
    && record.value.expiresAt > now && record.value.requestHash == requestHash
  }

  /** A guarded call ends without error exactly when the success of this request is then on record; a live success
      is replayed without running the callee, which otherwise raises what it raises. */
  lemma GuardedCallFacts(record: Option<Record>, requestHash: string, call: CallResult, body: string, eventId: string,
                         now: int)
    ensures var g := GuardedCall(record, requestHash, call, body, eventId, now);
            && (g.error.None? <==> LiveSuccess(g.record, requestHash, now))
            && (!g.ran ==> g.record == record)
            && (g.ran ==> g.record.Some? && (g.error.None? <==> call.Returns?))
            && (g.error.Some? && g.error.value.HandlerRaised? ==> g.ran && call == Raises(g.error.value.name, g.error.value.message))
            && (LiveSuccess(record, requestHash, now) ==> !g.ran && g.error.None?)
  {
  }

  // ----- one dispatch attempt -----

  /** The table, the result, and the indices of the handlers that were called, in call order. */
  datatype Attempt = Attempt(records: map<ScopeKey, Record>, result: Result<()>, called: seq<nat>)

  function HandlerBody(envelope: Envelope, handlerKey: string): string {
    "{\"event_id\": " + envelope.eventId + ", \"handler_key\": " + handlerKey + "}"
  }

  function HandlerCall(records: map<ScopeKey, Record>, envelope: Envelope, handlerKey: string, call: CallResult,
                       now: int): Guarded {
    var scope := HandlerScope(envelope, handlerKey);
    if ScopeBlank(scope) then Guarded(RecordOf(records, scope), false, Some(ValidationError))
    else GuardedCall(RecordOf(records, scope), HandlerRequestHash(envelope, handlerKey), call,
                     HandlerBody(envelope, handlerKey), envelope.eventId, now)
  }

  /** The first n handlers in turn, stopping at the first error; `calls[j]` is what handler j would do and
      `nows[j]` the clock at its claim. */
  function DispatchFirst(records: map<ScopeKey, Record>, envelope: Envelope, keys: seq<string>, n: nat,
                         calls: seq<HandlerRun>, nows: seq<int>): Attempt
    requires n <= |keys| == |calls| == |nows|
  {
    if n == 0 then Attempt(records, Ok(()), [])
    else
      var a := DispatchFirst(records, envelope, keys, n - 1, calls, nows);
      if a.result.Err? then a
      else
        var g := HandlerCall(a.records, envelope, keys[n - 1], calls[n - 1].end, nows[n - 1]);
        Attempt(AfterTurn(a.records, envelope, keys[n - 1], calls[n - 1], nows[n - 1]),
                if g.error.Some? then Err(g.error.value) else Ok(()),
                if g.ran then a.called + [n - 1] else a.called)
  }

  /** The record of one handler of this event. */
  function HandlerRecord(records: map<ScopeKey, Record>, envelope: Envelope, handlerKey: string): Option<Record> {
    RecordOf(records, HandlerScope(envelope, handlerKey))
  }

  predicate SucceededAt(records: map<ScopeKey, Record>, envelope: Envelope, handlerKey: string, now: int) {
    LiveSuccess(HandlerRecord(records, envelope, handlerKey), HandlerRequestHash(envelope, handlerKey), now)
  }

  // the effects of one handler

  /** One keyed effect under its own record. */
  function AfterEffect(records: map<ScopeKey, Record>, envelope: Envelope, handlerKey: string, e: EffectCall):
    map<ScopeKey, Record>
  {
    var scope := SideEffectScope(envelope, handlerKey, e.effectKey);
    if Blank(e.effectKey) || ScopeBlank(scope) then records
    else Put(records, scope, EffectGuarded(RecordOf(records, scope), envelope, handlerKey, e).record)
  }

  function EffectGuarded(record: Option<Record>, envelope: Envelope, handlerKey: string, e: EffectCall): Guarded {
    GuardedCall(record, SideEffectRequestHash(envelope, handlerKey, e.effectKey, e.payload), e.result,
                if e.result.Returns? then e.result.body else "", envelope.eventId, e.now)
  }

  /** The first n effects of a handler in turn. */
  function AfterEffects(records: map<ScopeKey, Record>, envelope: Envelope, handlerKey: string,
                        effects: seq<EffectCall>, n: nat):
    map<ScopeKey, Record>
    requires n <= |effects|
  {
    if n == 0 then records
    else AfterEffect(AfterEffects(records, envelope, handlerKey, effects, n - 1), envelope, handlerKey, effects[n - 1])
  }

  /** Effects never touch the record of a handler. */
  lemma {:induction false} EffectsLeaveHandlers(records: map<ScopeKey, Record>, envelope: Envelope, handlerKey: string,
                                                effects: seq<EffectCall>, n: nat, h: string)
    requires n <= |effects|
    ensures HandlerRecord(AfterEffects(records, envelope, handlerKey, effects, n), envelope, h) ==
            HandlerRecord(records, envelope, h)
  {
    hide EffectGuarded, SideEffectScope, HandlerScope;
    if n > 0 {
      EffectsLeaveHandlers(records, envelope, handlerKey, effects, n - 1, h);
      SideEffectScopesDistinct(envelope, handlerKey, effects[n - 1].effectKey, h, "");
    }
  }

  /** The table after one handler's turn: claimed, its effects run, and marked. */
  function AfterTurn(records: map<ScopeKey, Record>, envelope: Envelope, handlerKey: string, call: HandlerRun, now: int):
    map<ScopeKey, Record>
  {
    var scope := HandlerScope(envelope, handlerKey);
    var g := HandlerCall(records, envelope, handlerKey, call.end, now);
    if !g.ran then records
    else
      var claimed := Claim(RecordOf(records, scope), HandlerRequestHash(envelope, handlerKey), CLAIM_TTL, CLAIM_LOCK, now, true).0;
      Put(AfterEffects(Put(records, scope, claimed), envelope, handlerKey, call.effects, |call.effects|), scope, g.record)
  }

  lemma BlankScopeHasNoSuccess(records: map<ScopeKey, Record>, envelope: Envelope, handlerKey: string, end: CallResult,
                               now: int)
    ensures var g := HandlerCall(records, envelope, handlerKey, end, now);
            ScopeBlank(HandlerScope(envelope, handlerKey)) ==> !g.ran && g.error == Some(ValidationError)
  {
  }

  lemma TurnFacts(records: map<ScopeKey, Record>, envelope: Envelope, handlerKey: string, call: HandlerRun, now: int,
                  other: string)
    ensures var g := HandlerCall(records, envelope, handlerKey, call.end, now);
            var after := AfterTurn(records, envelope, handlerKey, call, now);
            && (other != handlerKey || !g.ran ==> HandlerRecord(after, envelope, other) == HandlerRecord(records, envelope, other))
            && HandlerRecord(after, envelope, handlerKey) == g.record
            && (g.error.None? ==> SucceededAt(after, envelope, handlerKey, now))
            && (SucceededAt(records, envelope, handlerKey, now) ==> !g.ran)
            && (g.error.Some? && g.error.value.HandlerRaised? ==> g.ran && call.end == Raises(g.error.value.name, g.error.value.message))
  {
    hide HandlerScope, HandlerRequestHash, GuardedCall, LiveSuccess;
    if other != handlerKey {
      HandlerScopesDistinct(envelope, other, handlerKey);
    }
    var scope := HandlerScope(envelope, handlerKey);
    var record := RecordOf(records, scope);
    var hash := HandlerRequestHash(envelope, handlerKey);
    GuardedCallFacts(record, hash, call.end, HandlerBody(envelope, handlerKey), envelope.eventId, now);
    BlankScopeHasNoSuccess(records, envelope, handlerKey, call.end, now);
    var claimed := Claim(record, hash, CLAIM_TTL, CLAIM_LOCK, now, true).0;
    EffectsLeaveHandlers(Put(records, scope, claimed), envelope, handlerKey, call.effects, |call.effects|, other);
  }

  lemma IncreasingAppend(s: seq<nat>, n: nat)
    requires Increasing(s) && forall j | j in s :: j < n
    ensures Increasing(s + [n]) && forall j | j in s + [n] :: j < n + 1
  {
    forall i, j | 0 <= i < j < |s + [n]|
      ensures (s + [n])[i] < (s + [n])[j]
    {
      assert s[i] in s;
    }
  }

  /** Handlers are called in registration order and each at most once. */
  lemma {:induction false} DispatchInOrder(records: map<ScopeKey, Record>, envelope: Envelope, keys: seq<string>, n: nat,
                                           calls: seq<HandlerRun>, nows: seq<int>)
    requires n <= |keys| == |calls| == |nows|
    ensures var called := DispatchFirst(records, envelope, keys, n, calls, nows).called;
            Increasing(called) && forall j | j in called :: j < n
  {
    hide HandlerCall, AfterTurn, HandlerRecord, LiveSuccess;
    if n > 0 {
      DispatchInOrder(records, envelope, keys, n - 1, calls, nows);
      IncreasingAppend(DispatchFirst(records, envelope, keys, n - 1, calls, nows).called, n - 1);
    }
  }

  /** A handler that is not called keeps its record, and one whose success is on record is not called. */
  lemma {:induction false} DispatchKeepsOthers(records: map<ScopeKey, Record>, envelope: Envelope, keys: seq<string>,
                                               n: nat,
                                               calls: seq<HandlerRun>, nows: seq<int>, j: nat)
    requires n <= |keys| == |calls| == |nows| && Distinct(keys) && j < |keys|
    ensures var a := DispatchFirst(records, envelope, keys, n, calls, nows);
            && (j !in a.called ==> HandlerRecord(a.records, envelope, keys[j]) == HandlerRecord(records, envelope, keys[j]))
            && (SucceededAt(records, envelope, keys[j], nows[j]) ==> j !in a.called)
  {
    hide HandlerCall, AfterTurn, HandlerRecord, LiveSuccess;
    if n > 0 {
      DispatchKeepsOthers(records, envelope, keys, n - 1, calls, nows, j);
      DispatchInOrder(records, envelope, keys, n - 1, calls, nows);
      var a := DispatchFirst(records, envelope, keys, n - 1, calls, nows);
      if a.result.Ok? {
        TurnFacts(a.records, envelope, keys[n - 1], calls[n - 1], nows[n - 1], keys[j]);
      }
    }
  }

  /** An attempt that ends without error leaves the success of every handler on record. */
  lemma {:induction false} DispatchOkMeansAll(records: map<ScopeKey, Record>, envelope: Envelope, keys: seq<string>,
                                              n: nat,
                                              calls: seq<HandlerRun>, nows: seq<int>, j: nat)
    requires n <= |keys| == |calls| == |nows| && Distinct(keys) && j < n
    requires DispatchFirst(records, envelope, keys, n, calls, nows).result.Ok?
    ensures SucceededAt(DispatchFirst(records, envelope, keys, n, calls, nows).records, envelope, keys[j], nows[j])
  {
    hide HandlerCall, AfterTurn, HandlerRecord, LiveSuccess;
    var a := DispatchFirst(records, envelope, keys, n - 1, calls, nows);
    TurnFacts(a.records, envelope, keys[n - 1], calls[n - 1], nows[n - 1], keys[j]);
    if j < n - 1 {
      DispatchOkMeansAll(records, envelope, keys, n - 1, calls, nows, j);
    }
  }

  /** An error ends the attempt: later handlers are not tried. */
  lemma {:induction false} ErrorSticks(records: map<ScopeKey, Record>, envelope: Envelope, keys: seq<string>, m: nat,
                                       n: nat,
                                       calls: seq<HandlerRun>, nows: seq<int>)
    requires m <= n <= |keys| == |calls| == |nows|
    requires DispatchFirst(records, envelope, keys, m, calls, nows).result.Err?
    ensures DispatchFirst(records, envelope, keys, n, calls, nows) == DispatchFirst(records, envelope, keys, m, calls, nows)
  {
    hide HandlerCall, AfterTurn;
    if m < n {
      ErrorSticks(records, envelope, keys, m, n - 1, calls, nows);
    }
  }

  /** An attempt that raises, for whatever reason, stops at one handler f, whose claim or call raised that error: every
      handler before f has its success on record, every handler after f keeps its record. */
  lemma {:induction false} DispatchStopsAtFirstFailure(records: map<ScopeKey, Record>, envelope: Envelope,
                                                       keys: seq<string>, n: nat,
                                                       calls: seq<HandlerRun>, nows: seq<int>) returns (f: nat)
    requires n <= |keys| == |calls| == |nows| && Distinct(keys)
    requires DispatchFirst(records, envelope, keys, n, calls, nows).result.Err?
    ensures f < n
    ensures var a := DispatchFirst(records, envelope, keys, n, calls, nows);
            var g := HandlerCall(DispatchFirst(records, envelope, keys, f, calls, nows).records, envelope, keys[f], calls[f].end, nows[f]);
            && g.error == Some(a.result.error)
            && (f in a.called <==> g.ran) && (forall i | i in a.called :: i <= f)
            && (a.result.error.HandlerRaised? ==>
                  g.ran && calls[f].end == Raises(a.result.error.name, a.result.error.message))
            && (forall j | 0 <= j < f :: SucceededAt(a.records, envelope, keys[j], nows[j]))
            && (forall j | f < j < |keys| :: HandlerRecord(a.records, envelope, keys[j]) == HandlerRecord(records, envelope, keys[j]))
  {
    hide HandlerCall, AfterTurn, HandlerRecord, LiveSuccess;
    var a := DispatchFirst(records, envelope, keys, n - 1, calls, nows);
    if a.result.Err? {
      f := DispatchStopsAtFirstFailure(records, envelope, keys, n - 1, calls, nows);
    } else {
      f := n - 1;
      TurnFacts(a.records, envelope, keys[f], calls[f], nows[f], keys[f]);
      DispatchInOrder(records, envelope, keys, n - 1, calls, nows);
      forall j | 0 <= j < f
        ensures SucceededAt(DispatchFirst(records, envelope, keys, n, calls, nows).records, envelope, keys[j], nows[j])
      {
        DispatchOkMeansAll(records, envelope, keys, n - 1, calls, nows, j);
        TurnFacts(a.records, envelope, keys[f], calls[f], nows[f], keys[j]);
      }
      forall j | f < j < |keys|
        ensures HandlerRecord(DispatchFirst(records, envelope, keys, n, calls, nows).records, envelope, keys[j]) ==
                HandlerRecord(records, envelope, keys[j])
      {
        DispatchKeepsOthers(records, envelope, keys, n - 1, calls, nows, j);
        TurnFacts(a.records, envelope, keys[f], calls[f], nows[f], keys[j]);
      }
    }
  }

  // ----- several events -----

  /** A record that belongs to this event, to one of its handlers or to one of their effects. */
  ghost predicate OfEvent(scope: ScopeKey, envelope: Envelope) {
    || (exists h :: scope == HandlerScope(envelope, h))
    || (exists h, x :: scope == SideEffectScope(envelope, h, x))
  }

  /** Events with different ids share no record. */
  lemma EventsApart(scope: ScopeKey, e: Envelope, f: Envelope)
    requires OfEvent(scope, e) && OfEvent(scope, f)
    ensures e.eventId == f.eventId && e.tenantId == f.tenantId
  {
    hide HandlerScope, SideEffectScope;
    var a, x := "", "";
    var b, y := "", "";
    if h :| scope == HandlerScope(e, h) {
      a := h;
      if k :| scope == HandlerScope(f, k) {
        HandlerScopesIdentify(e, f, h, k);
      } else {
        var k, z :| scope == SideEffectScope(f, k, z);
        SideEffectScopesIdentify(f, e, k, z, h, "");
      }
    } else {
      var h, z :| scope == SideEffectScope(e, h, z);
      if k :| scope == HandlerScope(f, k) {
        SideEffectScopesIdentify(e, f, h, z, k, "");
      } else {
        var k, w :| scope == SideEffectScope(f, k, w);
        SideEffectScopesIdentify(e, f, h, z, k, w);
      }
    }
  }

  lemma {:induction false} EffectsStayInEvent(records: map<ScopeKey, Record>, envelope: Envelope, handlerKey: string,
                                              effects: seq<EffectCall>, n: nat, scope: ScopeKey)
    requires n <= |effects| && !OfEvent(scope, envelope)
    ensures RecordOf(AfterEffects(records, envelope, handlerKey, effects, n), scope) == RecordOf(records, scope)
  {
    hide EffectGuarded, SideEffectScope, HandlerScope;
    if n > 0 {
      EffectsStayInEvent(records, envelope, handlerKey, effects, n - 1, scope);
      assert scope != SideEffectScope(envelope, handlerKey, effects[n - 1].effectKey);
    }
  }

  /** A dispatch of one event leaves the records of all other events alone, handlers' and effects' alike. */
  lemma {:induction false} DispatchStaysInEvent(records: map<ScopeKey, Record>, envelope: Envelope, keys: seq<string>,
                                                n: nat,
                                                calls: seq<HandlerRun>, nows: seq<int>, scope: ScopeKey)
    requires n <= |keys| == |calls| == |nows| && !OfEvent(scope, envelope)
    ensures RecordOf(DispatchFirst(records, envelope, keys, n, calls, nows).records, scope) == RecordOf(records, scope)
  {
    hide HandlerCall, HandlerScope, SideEffectScope, AfterEffects;
    if n > 0 {
      DispatchStaysInEvent(records, envelope, keys, n - 1, calls, nows, scope);
      var a := DispatchFirst(records, envelope, keys, n - 1, calls, nows);
      assert scope != HandlerScope(envelope, keys[n - 1]);
      var claimed := Claim(RecordOf(a.records, HandlerScope(envelope, keys[n - 1])), HandlerRequestHash(envelope, keys[n - 1]),
                           CLAIM_TTL, CLAIM_LOCK, nows[n - 1], true).0;
      var effects := calls[n - 1].effects;
      EffectsStayInEvent(Put(a.records, HandlerScope(envelope, keys[n - 1]), claimed), envelope, keys[n - 1], effects, |effects|, scope);
    }
  }

  /** One dispatch of an event to its handlers. */
  datatype DispatchCall = DispatchCall(envelope: Envelope, keys: seq<string>, calls: seq<HandlerRun>, nows: seq<int>)

  predicate WellSized(d: DispatchCall) {
    |d.keys| == |d.calls| == |d.nows|
  }

  /** The table after the first n dispatches of a history. */
  function AfterDispatches(records: map<ScopeKey, Record>, history: seq<DispatchCall>, n: nat): map<ScopeKey, Record>
    requires n <= |history| && forall i | 0 <= i < |history| :: WellSized(history[i])
  {
    if n == 0 then records
    else
      var d := history[n - 1];
      DispatchFirst(AfterDispatches(records, history, n - 1), d.envelope, d.keys, |d.keys|, d.calls, d.nows).records
  }

  /** However often other events were dispatched, to whatever handlers: an event's records are its own, and an event that
      was never dispatched has its first handler called. */
  lemma {:induction false} NewEventIsHandled(history: seq<DispatchCall>, n: nat, d: DispatchCall)
    requires n <= |history| && (forall i | 0 <= i < |history| :: WellSized(history[i])) && WellSized(d)
    requires forall i | 0 <= i < n :: history[i].envelope.eventId != d.envelope.eventId
    ensures forall scope | OfEvent(scope, d.envelope) :: scope !in AfterDispatches(map[], history, n)
    ensures d.keys != [] && !ScopeBlank(HandlerScope(d.envelope, d.keys[0])) ==>
              0 in DispatchFirst(AfterDispatches(map[], history, n), d.envelope, d.keys, |d.keys|, d.calls, d.nows).called
  {
    hide HandlerScope, SideEffectScope, OfEvent, DispatchFirst;
    if n > 0 {
      NewEventIsHandled(history, n - 1, d);
      var before := history[n - 1];
      forall scope | OfEvent(scope, d.envelope)
        ensures scope !in AfterDispatches(map[], history, n)
      {
        if OfEvent(scope, before.envelope) {
          EventsApart(scope, d.envelope, before.envelope);
        } else {
          DispatchStaysInEvent(AfterDispatches(map[], history, n - 1), before.envelope, before.keys, |before.keys|,
                               before.calls, before.nows, scope);
        }
      }
    }
    if d.keys != [] && !ScopeBlank(HandlerScope(d.envelope, d.keys[0])) {
      ScopeIsOfEvent(d.envelope, d.keys[0]);
      FirstIsCalled(AfterDispatches(map[], history, n), d, |d.keys|);
    }
  }

  lemma ScopeIsOfEvent(envelope: Envelope, handlerKey: string)
    ensures OfEvent(HandlerScope(envelope, handlerKey), envelope)
  {
  }

  lemma {:induction false} FirstIsCalled(records: map<ScopeKey, Record>, d: DispatchCall, n: nat)
    requires WellSized(d) && 1 <= n <= |d.keys| && HandlerScope(d.envelope, d.keys[0]) !in records
    requires !ScopeBlank(HandlerScope(d.envelope, d.keys[0]))
    ensures 0 in DispatchFirst(records, d.envelope, d.keys, n, d.calls, d.nows).called
  {
    hide AfterTurn, HandlerScope, HandlerRequestHash;
    if n == 1 {
      var a := DispatchFirst(records, d.envelope, d.keys, 0, d.calls, d.nows);
      assert HandlerCall(records, d.envelope, d.keys[0], d.calls[0].end, d.nows[0]).ran;
      assert DispatchFirst(records, d.envelope, d.keys, 1, d.calls, d.nows).called == [0];
    } else {
      FirstIsCalled(records, d, n - 1);
    }
  }

  class EventRegistry {
    var schemas: Schemas
    var handlers: map<(string, int), seq<string>>

    ghost predicate Valid()
      reads this
    {
      && (forall key | key in handlers :: Distinct(handlers[key]))
      && handlers.Keys <= schemas.Keys
    }

    constructor ()
      ensures Valid() && schemas == map[] && handlers == map[]
    {
      schemas, handlers := map[], map[];
    }

    /** A second registration of a handler key for the same event is refused. */
    method Register(eventType: string, eventVersion: int, handlerKey: string) returns (result: Result<()>)
      requires Valid()
      modifies this
      ensures Valid()
      ensures var key := (eventType, eventVersion);
              var before := if key in old(handlers) then old(handlers)[key] else [];
              && (result.Ok? <==> (key in old(schemas) || eventVersion >= 1) && handlerKey !in before)
              && (result.Ok? ==> handlers == old(handlers)[key := before + [handlerKey]])
              && (result.Err? ==> handlers == old(handlers) && result.error == ValueError)
              && schemas == if key in old(schemas) || eventVersion < 1 then old(schemas)
                            else old(schemas)[key := Schema({}, map[])]
    {
      var key := (eventType, eventVersion);
      if key !in schemas {
        if eventVersion < 1 {
          return Err(ValueError);
        }
        schemas := schemas[key := Schema({}, map[])];
      }
      var entries := if key in handlers then handlers[key] else [];
      if handlerKey in entries {
        return Err(ValueError);
      }
      handlers := handlers[key := entries + [handlerKey]];
      result := Ok(());
    }

    /** Claims the handler's key, calls the handler within its side-effect context, and marks the outcome. */
    method CallHandler(envelope: Envelope, handlerKey: string, store: IdempotencyStore, call: HandlerRun, now: int)
      returns (ran: bool, error: Option<AppError>)
      modifies store
      ensures var g := HandlerCall(old(store.records), envelope, handlerKey, call.end, now);
              && ran == g.ran && error == g.error
              && store.records == AfterTurn(old(store.records), envelope, handlerKey, call, now)
      ensures ran ==>
                && HandlerScope(envelope, handlerKey) in store.records
                && var r := store.records[HandlerScope(envelope, handlerKey)];
                   && r.lockedUntil == None && r.requestHash == HandlerRequestHash(envelope, handlerKey)
                   && r.expiresAt == now + Seconds(86_400)
                   && match call.end
                      case Returns(_) =>
                        && error == None && r.status == Succeeded && r.responseCode == Some("OK") && r.taskId == None
                        && r.responseBody == Some("{\"event_id\": " + envelope.eventId + ", \"handler_key\": " + handlerKey + "}")
                        && r.outboxEventId == Some(envelope.eventId)
                      case Raises(name, message) =>
                        && error == Some(HandlerRaised(name, message)) && r.status == Failed
                        && r.responseCode == Some(name) && r.responseBody == Some("{\"error\": " + message + "}")
    {
      hide HandlerScope, HandlerRequestHash, AfterEffects;
      ghost var before := store.records;
      var scope := HandlerScope(envelope, handlerKey);
      DigestNotBlank([envelope.eventId, envelope.eventType, Decimal(envelope.eventVersion), handlerKey]);
      HashIsDigest(envelope, handlerKey);
      var outcome := store.ClaimKey(scope, HandlerRequestHash(envelope, handlerKey), 86_400, 60, now, true);
      if outcome.Err? {
        return false, Some(outcome.error);
      }
      if outcome.value.Replayed? {
        return false, None;
      }
      ran := true;
      EffectsLeaveHandlers(store.records, envelope, handlerKey, call.effects, |call.effects|, handlerKey);
      RunEffects(envelope, handlerKey, store, call.effects);
      match call.end
      case Raises(name, message) =>
        store.MarkFailed(scope, name, ErrorBody(message));
        error := Some(HandlerRaised(name, message));
      case Returns(_) =>
        store.MarkSucceeded(scope, "OK", HandlerBody(envelope, handlerKey), None, Some(envelope.eventId));
        error := None;
    }

    /** The handler's effects, one after the other; the handler decides what it makes of their results. */
    method RunEffects(envelope: Envelope, handlerKey: string, store: IdempotencyStore, effects: seq<EffectCall>)
      modifies store
      ensures store.records == AfterEffects(old(store.records), envelope, handlerKey, effects, |effects|)
    {
      var runner := new SideEffectRunner(store);
      runner.current := Some(SideEffectContext(envelope, handlerKey));
      for n := 0 to |effects|
        invariant runner.current == Some(SideEffectContext(envelope, handlerKey)) && runner.store == store
        invariant store.records == AfterEffects(old(store.records), envelope, handlerKey, effects, n)
      {
        var e := effects[n];
        var result, ran := runner.RunEventSideEffect(e.effectKey, e.result, e.payload, e.now);
      }
    }

    method CallHandlers(envelope: Envelope, entries: seq<string>, store: IdempotencyStore, calls: seq<HandlerRun>,
                        nows: seq<int>)
      returns (result: Result<()>, called: seq<nat>)
      requires |calls| == |nows| == |entries|
      modifies store
      ensures Attempt(store.records, result, called) == DispatchFirst(old(store.records), envelope, entries, |entries|, calls, nows)
    {
      hide HandlerCall, AfterTurn;
      called := [];
      for i := 0 to |entries|
        invariant Attempt(store.records, Ok(()), called) == DispatchFirst(old(store.records), envelope, entries, i, calls, nows)
      {
        var ran, error := CallHandler(envelope, entries[i], store, calls[i], nows[i]);
        if ran {
          called := called + [i];
        }
        if error.Some? {
          ErrorSticks(old(store.records), envelope, entries, i + 1, |entries|, calls, nows);
          return Err(error.value), called;
        }
      }
      result := Ok(());
    }

    /** Runs the event's handlers against the store; the lemmas on `DispatchFirst` say what that comes to. */
    method Dispatch(envelope: Envelope, store: IdempotencyStore, calls: seq<HandlerRun>, nows: seq<int>)
      returns (result: Result<()>, called: seq<nat>)
      requires Valid()
      requires var key := (envelope.eventType, envelope.eventVersion);
               key in handlers ==> |calls| == |nows| == |handlers[key]|
      modifies store
      ensures var key := (envelope.eventType, envelope.eventVersion);
              if Fault(schemas, envelope.eventType, envelope.eventVersion, envelope.tenantId, envelope.payload).Some? then
                result == Err(ValidationError) && called == [] && store.records == old(store.records)
              else if key !in handlers || handlers[key] == [] then
                result == Err(NoHandler) && called == [] && store.records == old(store.records)
              else
                && Distinct(handlers[key])
                && Attempt(store.records, result, called)
                   == DispatchFirst(old(store.records), envelope, handlers[key], |handlers[key]|, calls, nows)
    {
      var key := (envelope.eventType, envelope.eventVersion);
      if Fault(schemas, envelope.eventType, envelope.eventVersion, envelope.tenantId, envelope.payload).Some? {
        return Err(ValidationError), [];
      }
      if key !in handlers || handlers[key] == [] {
        return Err(NoHandler), [];
      }
      result, called := CallHandlers(envelope, handlers[key], store, calls, nows);
    }
  }

  /** Claims the key, runs the callee when the claim started, and marks the outcome. */
  method RunGuarded(store: IdempotencyStore, scope: ScopeKey, requestHash: string, call: CallResult, body: string,
                    eventId: string, now: int)
    returns (ran: bool, error: Option<AppError>)
    requires !Blank(requestHash)
    modifies store
    ensures ScopeBlank(scope) ==> !ran && error == Some(ValidationError) && store.records == old(store.records)
    ensures !ScopeBlank(scope) ==>
              var g := GuardedCall(RecordOf(old(store.records), scope), requestHash, call, body, eventId, now);
              ran == g.ran && error == g.error && store.records == Put(old(store.records), scope, g.record)
  {
    ghost var before := store.records;
    var outcome := store.ClaimKey(scope, requestHash, 86_400, 60, now, true);
    if outcome.Err? {
      assert store.records == before;
      return false, Some(outcome.error);
    }
    if outcome.value.Replayed? {
      assert store.records == before;
      return false, None;
    }
    ran := true;
    match call
    case Raises(name, message) =>
      store.MarkFailed(scope, name, ErrorBody(message));
      error := Some(HandlerRaised(name, message));
    case Returns(_) =>
      store.MarkSucceeded(scope, "OK", body, None, Some(eventId));
      error := None;
  }

  // ----- side effects inside a handler -----

  /** The registry sets it around each handler call, and only when it dispatches with an idempotency store. */
  datatype SideEffectContext = SideEffectContext(envelope: Envelope, handlerKey: string)

  datatype SideEffectResult = SideEffectResult(outcome: Outcome, responseBody: Option<string>)

  class SideEffectRunner {
    const store: IdempotencyStore
    var current: Option<SideEffectContext>

    constructor (store: IdempotencyStore)
      ensures this.store == store && current == None
    {
      this.store := store;
      current := None;
    }

    /** Runs `effect` under the record of its key: `effect` says what it would do, `ran` whether it was run. */
    method RunEventSideEffect(effectKey: string, effect: CallResult, payload: string, now: int)
      returns (result: Result<SideEffectResult>, ran: bool)
      modifies store
      ensures current.None? ==> result == Err(NoHandler) && !ran && store.records == old(store.records)
      ensures current.Some? ==>
                var c := current.value;
                var scope := SideEffectScope(c.envelope, c.handlerKey, effectKey);
                if Blank(effectKey) || ScopeBlank(scope) then
                  result == Err(ValidationError) && !ran && store.records == old(store.records)
                else
                  var g := GuardedCall(RecordOf(old(store.records), scope),
                                       SideEffectRequestHash(c.envelope, c.handlerKey, effectKey, payload),
                                       effect, if effect.Returns? then effect.body else "", c.envelope.eventId, now);
                  && ran == g.ran
                  && store.records == Put(old(store.records), scope, g.record)
                  && (g.error.Some? ==> result == Err(g.error.value))
                  && (g.error.None? ==>
                        && g.record.Some?
                        && result == Ok(SideEffectResult(if ran then Started else Replayed, g.record.value.responseBody)))
      ensures ran && effect.Returns? ==> result == Ok(SideEffectResult(Started, Some(effect.body)))
      ensures ran && effect.Raises? ==> result == Err(HandlerRaised(effect.name, effect.message))
      ensures current.Some? && result.Ok? && !ran ==>
                var scope := SideEffectScope(current.value.envelope, current.value.handlerKey, effectKey);
                scope in old(store.records) && result == Ok(SideEffectResult(Replayed, old(store.records)[scope].responseBody))
    {
      if current.None? {
        return Err(NoHandler), false;
      }
      if Blank(effectKey) {
        return Err(ValidationError), false;
      }
      var c := current.value;
      var scope := SideEffectScope(c.envelope, c.handlerKey, effectKey);
      var hash := SideEffectRequestHash(c.envelope, c.handlerKey, effectKey, payload);
      var body := if effect.Returns? then effect.body else "";
      DigestNotBlank([c.envelope.eventId, c.envelope.eventType, Decimal(c.envelope.eventVersion), c.handlerKey, effectKey, payload]);
      GuardedCallFacts(RecordOf(store.records, scope), hash, effect, body, c.envelope.eventId, now);
      var error;
      ran, error := RunGuarded(store, scope, hash, effect, body, c.envelope.eventId, now);
      if error.Some? {
        return Err(error.value), ran;
      }
      result := Ok(SideEffectResult(if ran then Started else Replayed, store.records[scope].responseBody));
    }
  }
}
