/** Keyed side effects over whole histories of the record table: handlers that fail, crash and are retried, other
    effects, other events and expiry sweeps, in any interleaving. */
module SideEffectRuns {
  import opened Common
  import opened Events
  import opened Idempotency
  import opened IdempotencyRuns

  /** The state of every scope key of the record table. */
  type Store = ScopeKey -> KeyState

  /** A step of a guarded run on one key, or a sweep of the whole table. */
  datatype StoreStep = On(key: ScopeKey, step: Step) | SweepAll(now: int)

  function InitStore(clock: int): Store {
    key => IdempotencyRuns.Init(clock)
  }

  function NextStore(s: Store, step: StoreStep): Store {
    match step
    case On(key, inner) => (k => if k == key then IdempotencyRuns.Next(s(k), inner) else s(k))
    case SweepAll(now) => (k => IdempotencyRuns.Next(s(k), Sweep(now)))
  }

  function RunStore(s: Store, steps: seq<StoreStep>): Store
    decreases |steps|
  {
    if steps == [] then s else RunStore(NextStore(s, steps[0]), steps[1..])
  }

  /** What one key sees of a history. */
  function SeenBy(key: ScopeKey, steps: seq<StoreStep>): seq<Step>
    decreases |steps|
  {
    if steps == [] then []
    else
      match steps[0]
      case On(k, inner) => if k == key then [inner] + SeenBy(key, steps[1..]) else SeenBy(key, steps[1..])
      case SweepAll(now) => [Sweep(now)] + SeenBy(key, steps[1..])
  }

  /** Each key runs as if it were alone. */
  lemma {:induction false} KeyRunsAlone(s: Store, steps: seq<StoreStep>, key: ScopeKey)
    ensures RunStore(s, steps)(key) == IdempotencyRuns.Run(s(key), SeenBy(key, steps))
    decreases |steps|
  {
    hide IdempotencyRuns.Next;
    if steps != [] {
      KeyRunsAlone(NextStore(s, steps[0]), steps[1..], key);
      var seen := SeenBy(key, steps);
      if steps[0].SweepAll? || steps[0].key == key {
        assert seen[1..] == SeenBy(key, steps[1..]);
      }
    }
  }

  /** Claiming, failing or finishing a handler leaves its effects' records alone. */
  lemma HandlersLeaveEffectsAlone(s: Store, envelope: Envelope, handlerKey: string, inner: Step, h: string,
                                  effectKey: string)
    ensures NextStore(s, On(HandlerScope(envelope, handlerKey), inner))(SideEffectScope(envelope, h, effectKey)) ==
            s(SideEffectScope(envelope, h, effectKey))
  {
    SideEffectScopesDistinct(envelope, h, effectKey, handlerKey, effectKey);
  }

  /** Every effect is marked inside its lock, the clock of the key does not go back, and the history stays inside the
      lifetime of a recorded success. What other keys do, the handler's own among them, is not restricted. */
  predicate InTime(clock: int, steps: seq<StoreStep>, key: ScopeKey) {
    && LegalRun(IdempotencyRuns.Init(clock), SeenBy(key, steps))
    && var s := RunStore(InitStore(clock), steps)(key);
       forall i | 0 <= i < |s.successes| :: s.clock < s.successes[i].record.expiresAt
  }

  /** An effect completes at most once per event, handler and effect key, though the handler around it may fail and be
      retried any number of times. */
  lemma EffectCompletesOnce(clock: int, steps: seq<StoreStep>, envelope: Envelope, handlerKey: string, effectKey: string)
    requires InTime(clock, steps, SideEffectScope(envelope, handlerKey, effectKey))
    ensures |RunStore(InitStore(clock), steps)(SideEffectScope(envelope, handlerKey, effectKey)).successes| <= 1
  {
    var key := SideEffectScope(envelope, handlerKey, effectKey);
    KeyRunsAlone(InitStore(clock), steps, key);
    hide IdempotencyRuns.Run, RunStore, LegalRun;
    RunInv(IdempotencyRuns.Init(clock), SeenBy(key, steps));
    var s := RunStore(InitStore(clock), steps)(key);
    if s.successes != [] {
      assert s.successes[|s.successes| - 1].at <= s.clock < s.successes[0].record.expiresAt;
    }
  }

  /** Once an effect has completed, every later call with the same payload runs nothing and gives back the body that
      its one completion returned; a call with another payload is refused. */
  lemma LaterCallsReplay(clock: int, steps: seq<StoreStep>, envelope: Envelope, handlerKey: string, effectKey: string,
                         payload: string, later: string, run: nat, now: int)
    requires InTime(clock, steps, SideEffectScope(envelope, handlerKey, effectKey))
    requires var s := RunStore(InitStore(clock), steps)(SideEffectScope(envelope, handlerKey, effectKey));
             && |s.successes| > 0 && s.clock <= now < s.successes[0].record.expiresAt && run !in s.active
             && s.successes[0].record.requestHash == SideEffectRequestHash(envelope, handlerKey, effectKey, payload)
    ensures var s := RunStore(InitStore(clock), steps)(SideEffectScope(envelope, handlerKey, effectKey));
            var claim := Begin(run, SideEffectRequestHash(envelope, handlerKey, effectKey, later), CLAIM_TTL, CLAIM_LOCK, true, now);
            ClaimOf(s, claim) ==
              (Some(s.successes[0].record), if later == payload then Ok(Replayed) else Err(KeyConflict))
            && |s.successes| == 1
            && s.successes[0].record.responseBody == Some(s.successes[0].response.body)
  {
    var key := SideEffectScope(envelope, handlerKey, effectKey);
    EffectCompletesOnce(clock, steps, envelope, handlerKey, effectKey);
    KeyRunsAlone(InitStore(clock), steps, key);
    var claim := Begin(run, SideEffectRequestHash(envelope, handlerKey, effectKey, later), CLAIM_TTL, CLAIM_LOCK, true, now);
    SideEffectHashInjective(envelope, handlerKey, effectKey, later, envelope, handlerKey, effectKey, payload);
    hide IdempotencyRuns.Run, RunStore, LegalRun, SideEffectRequestHash, SideEffectScope;
    SuccessIsReplayed(clock, SeenBy(key, steps), 0, claim);
    RunInv(IdempotencyRuns.Init(clock), SeenBy(key, steps));
  }
}
