/** Idempotency records: the per-key state machine and the store that holds it. */
module Idempotency {
  import opened Common

  datatype Status = Processing | Succeeded | Failed | Expired

  datatype Record = Record(
    requestHash: string,
    status: Status,
    responseCode: Option<string>,
    responseBody: Option<string>,
    taskId: Option<string>,
    outboxEventId: Option<string>,
    lockedUntil: Option<int>,
    expiresAt: int)

  datatype ScopeKey = ScopeKey(tenantId: string, userId: string, route: string, idempotencyKey: string)

  datatype Outcome = Started | Replayed

  datatype Diagnosis =
    | Missing
    | ExpiredReusable
    | RequestHashConflict
    | Replayable
    | InProgressDiagnosis(retryAfter: int)
    | FailedRequiresOptIn
    | RetryableFailed

  predicate ScopeBlank(key: ScopeKey) {
    Blank(key.tenantId) || Blank(key.userId) || Blank(key.route) || Blank(key.idempotencyKey)
  }

  /** A fresh or restarted record. */
  function Processed(requestHash: string, ttl: int, lock: int, now: int): Record {
    Record(requestHash, Processing, None, None, None, None, Some(now + lock), now + ttl)
  }

  /** `int(max(0, locked_until - now))` in seconds. */
  function RetryAfter(lockedUntil: Option<int>, now: int): int {
    if lockedUntil.None? || lockedUntil.value <= now then 0 else (lockedUntil.value - now) / 1_000_000
  }

  /** One claim of one key: the record afterwards and what the caller learns. */
  function Claim(record: Option<Record>, requestHash: string, ttl: int, lock: int, now: int, retryFailed: bool):
    (Option<Record>, Result<Outcome>)
  {
    var restarted := (Some(Processed(requestHash, ttl, lock, now)), Ok(Started));
    if record.None? then restarted
    else
      var r := record.value;
      if r.expiresAt <= now then restarted
      else if r.requestHash != requestHash then (record, Err(KeyConflict))
      else if r.status.Succeeded? then (record, Ok(Replayed))
      else if r.status.Processing? then
        if r.lockedUntil.Some? && r.lockedUntil.value <= now then restarted
        else (record, Err(InProgress(RetryAfter(r.lockedUntil, now))))
      else if r.status.Failed? && !retryFailed then (record, Err(Conflict))
      else restarted
  }

  function Succeed(r: Record, code: string, body: string, taskId: Option<string>, outboxEventId: Option<string>): Record {
    r.(status := Succeeded,
       responseCode := Some(code),
       responseBody := Some(body),
       taskId := taskId,
       outboxEventId := outboxEventId,
       lockedUntil := None)
  }

  function Fail(r: Record, code: string, body: string): Record {
    r.(status := Failed, responseCode := Some(code), responseBody := Some(body), lockedUntil := None)
  }

  function Swept(r: Record, now: int): Record {
    if !r.status.Expired? && r.expiresAt <= now then r.(status := Expired, lockedUntil := None) else r
  }

  function Diagnose(record: Option<Record>, requestHash: Option<string>, now: int, retryFailed: bool): Diagnosis {
    if record.None? then Missing
    else
      var r := record.value;
      if r.expiresAt <= now || r.status.Expired? then ExpiredReusable
      else if requestHash.Some? && r.requestHash != requestHash.value then RequestHashConflict
      else if r.status.Succeeded? then Replayable
      else if r.status.Processing? then InProgressDiagnosis(RetryAfter(r.lockedUntil, now))
      else if retryFailed then RetryableFailed
      else FailedRequiresOptIn
  }

  /** The wait is the greatest whole number of seconds that does not go past the end of the lock. */
  lemma RetryAfterIsWhole(lockedUntil: int, now: int)
    ensures RetryAfter(None, now) == 0
    ensures now >= lockedUntil ==> RetryAfter(Some(lockedUntil), now) == 0
    ensures now < lockedUntil ==>
              var wait := RetryAfter(Some(lockedUntil), now);
              wait >= 0 && now + Seconds(wait) <= lockedUntil < now + Seconds(wait + 1)
  {
  }

  /** What a diagnosis says about the record: that there is none, that its lifetime is over or was ended by a sweep, or
      otherwise its status, for a failure with whether it may be retried. */
  lemma DiagnosisNames(record: Option<Record>, requestHash: Option<string>, now: int, retryFailed: bool)
    ensures var d := Diagnose(record, requestHash, now, retryFailed);
            && (d == Missing <==> record == None)
            && (d == ExpiredReusable <==> record.Some? && (record.value.expiresAt <= now || record.value.status == Expired))
            && (d == Replayable ==> record.value.status == Succeeded)
            && (d == RetryableFailed ==> record.value.status == Failed && retryFailed)
            && (d == FailedRequiresOptIn ==> record.value.status == Failed && !retryFailed)
            && (d.InProgressDiagnosis? ==> record.value.status == Processing)
            && (d == RequestHashConflict ==> requestHash.Some? && requestHash != Some(record.value.requestHash))
  {
  }

  // ----- what a diagnosis says about the next claim -----

  /** The claim that a diagnosis announces; a record in progress is claimable once its lock is past. */
  function Predicted(d: Diagnosis, lockedUntil: Option<int>, now: int): Result<Outcome> {
    match d
    case Missing => Ok(Started)
    case ExpiredReusable => Ok(Started)
    case RetryableFailed => Ok(Started)
    case Replayable => Ok(Replayed)
    case RequestHashConflict => Err(KeyConflict)
    case FailedRequiresOptIn => Err(Conflict)
    case InProgressDiagnosis(retryAfter) =>
      if lockedUntil.Some? && lockedUntil.value <= now then Ok(Started) else Err(InProgress(retryAfter))
  }

  function LockOf(record: Option<Record>): Option<int> {
    if record.None? then None else record.value.lockedUntil
  }

  /** A swept record whose expiry is still ahead: only a clock that went back can show one. */
  predicate SweptEarly(record: Option<Record>, now: int) {
    record.Some? && record.value.status.Expired? && record.value.expiresAt > now
  }

  /** A diagnosis announces the outcome of the claim, in every case but one: a record that was swept before its
      expiry and asked for with another payload, which is diagnosed reusable while the claim is refused. */
  lemma DiagnosePredictsClaimIff(record: Option<Record>, requestHash: string, ttl: int, lock: int, now: int,
                                 retryFailed: bool)
    ensures var (_, outcome) := Claim(record, requestHash, ttl, lock, now, retryFailed);
            Predicted(Diagnose(record, Some(requestHash), now, retryFailed), LockOf(record), now) == outcome
            <==> !(SweptEarly(record, now) && record.value.requestHash != requestHash)
  {
  }

  class IdempotencyStore {
    var records: map<ScopeKey, Record>

    constructor ()
      ensures records == map[]
    {
      records := map[];
    }

    function Lookup(key: ScopeKey): Option<Record>
      reads this
    {
      if key in records then Some(records[key]) else None
    }

    /** The unique constraint on the scope key decides whether the insert wins. */
    method InsertProcessingRecord(key: ScopeKey, requestHash: string, ttl: int, lock: int, now: int)
      returns (inserted: bool)
      modifies this
      ensures inserted == (key !in old(records))
      ensures records == if inserted then old(records)[key := Processed(requestHash, ttl, lock, now)] else old(records)
      ensures inserted ==>
                records[key] == Record(requestHash, Processing, None, None, None, None, Some(now + lock), now + ttl)
    {
      if key in records {
        return false;
      }
      records := records[key := Processed(requestHash, ttl, lock, now)];
      inserted := true;
    }

    method RestartProcessing(key: ScopeKey, requestHash: string, ttl: int, lock: int, now: int)
      requires key in records
      modifies this
      ensures records == old(records)[key := Processed(requestHash, ttl, lock, now)]
      ensures records[key] == Record(requestHash, Processing, None, None, None, None, Some(now + lock), now + ttl)
    {
      records := records[key := records[key].(
        requestHash := requestHash, status := Processing, responseCode := None, responseBody := None,
        taskId := None, outboxEventId := None, lockedUntil := Some(now + lock), expiresAt := now + ttl)];
    }

    method HandleExisting(key: ScopeKey, requestHash: string, ttl: int, lock: int, now: int, retryFailed: bool)
      returns (outcome: Result<Outcome>)
      requires key in records
      modifies this
      ensures (Lookup(key), outcome) == Claim(Some(old(records)[key]), requestHash, ttl, lock, now, retryFailed)
      ensures records == old(records)[key := records[key]]
    {
      var record := records[key];
      if record.expiresAt <= now {
        RestartProcessing(key, requestHash, ttl, lock, now);
        return Ok(Started);
      }
      if record.requestHash != requestHash {
        return Err(KeyConflict);
      }
      if record.status.Succeeded? {
        return Ok(Replayed);
      }
      if record.status.Processing? {
        if record.lockedUntil.Some? && record.lockedUntil.value <= now {
          RestartProcessing(key, requestHash, ttl, lock, now);
          return Ok(Started);
        }
        return Err(InProgress(RetryAfter(record.lockedUntil, now)));
      }
      if record.status.Failed? && !retryFailed {
        return Err(Conflict);
      }
      RestartProcessing(key, requestHash, ttl, lock, now);
      return Ok(Started);
    }

    method ClaimKey(key: ScopeKey, requestHash: string, ttlSeconds: int, lockSeconds: int, now: int, retryFailed: bool)
      returns (outcome: Result<Outcome>)
      modifies this
      ensures outcome == Err(ValidationError) <==>
              Blank(key.tenantId) || Blank(key.userId) || Blank(key.route) || Blank(key.idempotencyKey) || Blank(requestHash)
      ensures ScopeBlank(key) || Blank(requestHash) ==> outcome == Err(ValidationError) && records == old(records)
      ensures !ScopeBlank(key) && !Blank(requestHash) ==>
                && (Lookup(key), outcome) ==
                     Claim(old(Lookup(key)), requestHash, Seconds(ttlSeconds), Seconds(lockSeconds), now, retryFailed)
                && key in records && records == old(records)[key := records[key]]
    {
      if ScopeBlank(key) || Blank(requestHash) {
        return Err(ValidationError);
      }
      var ttl, lock := Seconds(ttlSeconds), Seconds(lockSeconds);
      var inserted := InsertProcessingRecord(key, requestHash, ttl, lock, now);
      if inserted {
        return Ok(Started);
      }
      outcome := HandleExisting(key, requestHash, ttl, lock, now, retryFailed);
    }

    method MarkSucceeded(key: ScopeKey, code: string, body: string, taskId: Option<string>, outboxEventId: Option<string>)
      requires key in records
      modifies this
      ensures records == old(records)[key := Succeed(old(records)[key], code, body, taskId, outboxEventId)]
      ensures records[key] == Record(old(records)[key].requestHash, Succeeded, Some(code), Some(body), taskId, outboxEventId,
                                     None, old(records)[key].expiresAt)
    {
      records := records[key := Succeed(records[key], code, body, taskId, outboxEventId)];
    }

    method MarkFailed(key: ScopeKey, code: string, body: string)
      requires key in records
      modifies this
      ensures records == old(records)[key := Fail(old(records)[key], code, body)]
      ensures var r := old(records)[key];
              records[key] == Record(r.requestHash, Failed, Some(code), Some(body), r.taskId, r.outboxEventId, None, r.expiresAt)
    {
      records := records[key := Fail(records[key], code, body)];
    }

    /** Sweeps every record past its expiry, and counts those it changed. */
    method ExpireBefore(now: int) returns (count: nat)
      modifies this
      ensures records.Keys == old(records).Keys
      ensures forall key | key in records :: records[key] == Swept(old(records)[key], now)
      ensures forall key | key in records ::
                var r := old(records)[key];
                records[key] == if r.status != Expired && r.expiresAt <= now then r.(status := Expired, lockedUntil := None) else r
      ensures count == |set key | key in old(records) && !old(records)[key].status.Expired? && old(records)[key].expiresAt <= now|
    {
      var due := set key | key in records && !records[key].status.Expired? && records[key].expiresAt <= now;
      var pending := due;
      count := 0;
      while pending != {}
        invariant pending <= due && count + |pending| == |due|
        invariant records.Keys == old(records).Keys
        invariant forall key | key in records ::
            records[key] == if key in due - pending then Swept(old(records)[key], now) else old(records)[key]
      {
        var key :| key in pending;
        records := records[key := records[key].(status := Expired, lockedUntil := None)];
        pending := pending - {key};
        count := count + 1;
      }
    }

    method DiagnoseKey(key: ScopeKey, requestHash: Option<string>, now: int, retryFailed: bool)
      returns (diagnosis: Result<Diagnosis>)
      ensures diagnosis.Err? <==>
              || Blank(key.tenantId) || Blank(key.userId) || Blank(key.route) || Blank(key.idempotencyKey)
              || (requestHash.Some? && Blank(requestHash.value))
      ensures diagnosis ==
                if ScopeBlank(key) || (requestHash.Some? && Blank(requestHash.value)) then Err(ValidationError)
                else Ok(Diagnose(Lookup(key), requestHash, now, retryFailed))
    {
      if ScopeBlank(key) || (requestHash.Some? && Blank(requestHash.value)) {
        return Err(ValidationError);
      }
      return Ok(Diagnose(Lookup(key), requestHash, now, retryFailed));
    }
  }

  // ----- the mutation guard -----

  /** What running the handler and its response builders comes to. */
  datatype HandlerResult =
    | Returned(body: string, taskId: Option<string>, outboxEventId: Option<string>)
    | Raised(name: string, message: string)

  datatype GuardResult = GuardResult(
    outcome: Outcome,
    responseCode: Option<string>,
    responseBody: Option<string>,
    taskId: Option<string>,
    outboxEventId: Option<string>)

  function ErrorBody(message: string): string {
    "{\"error\": " + message + "}"
  }

  function RecordedResponse(outcome: Outcome, r: Record): GuardResult {
    GuardResult(outcome, r.responseCode, r.responseBody, r.taskId, r.outboxEventId)
  }

  class IdempotencyMutationGuard {
    const store: IdempotencyStore

    constructor (store: IdempotencyStore)
      ensures this.store == store
    {
      this.store := store;
    }

    /** One guarded mutation. `handler` says what the handler would do; `called` whether it was called. */
    method Run(key: ScopeKey, requestHash: string, handler: HandlerResult, code: string,
               ttlSeconds: int, lockSeconds: int, now: int, retryFailed: bool)
      returns (result: Result<GuardResult>, called: bool)
      modifies store
      ensures ScopeBlank(key) || Blank(requestHash) ==>
                result == Err(ValidationError) && !called && store.records == old(store.records)
      ensures !ScopeBlank(key) && !Blank(requestHash) ==>
                var (claimed, outcome) := Claim(old(store.Lookup(key)), requestHash,
                                                Seconds(ttlSeconds), Seconds(lockSeconds), now, retryFailed);
                && called == (outcome == Ok(Started))
                && key in store.records && store.records == old(store.records)[key := store.records[key]]
                && (outcome.Err? ==> result == Err(outcome.error) && store.records == old(store.records))
                && (outcome == Ok(Replayed) ==>
                      && store.records == old(store.records)
                      && result == Ok(RecordedResponse(Replayed, store.records[key])))
                && (called && handler.Returned? ==>
                      && claimed.Some?
                      && store.records[key] == Succeed(claimed.value, code, handler.body, handler.taskId, handler.outboxEventId)
                      && result == Ok(GuardResult(Started, Some(code), Some(handler.body), handler.taskId, handler.outboxEventId))
                      && result == Ok(RecordedResponse(Started, store.records[key])))
                && (outcome == Ok(Replayed) ==>
                      var r := old(store.records)[key];
                      result == Ok(GuardResult(Replayed, r.responseCode, r.responseBody, r.taskId, r.outboxEventId)))
                && (called && handler.Raised? ==>
                      && store.records[key].status == Failed && store.records[key].responseCode == Some(handler.name)
                      && store.records[key].responseBody == Some("{\"error\": " + handler.message + "}")
                      && claimed.Some?
                      && store.records[key] == Fail(claimed.value, handler.name, ErrorBody(handler.message))
                      && result == Err(HandlerRaised(handler.name, handler.message)))
    {
      called := false;
      var outcome := store.ClaimKey(key, requestHash, ttlSeconds, lockSeconds, now, retryFailed);
      if outcome.Err? {
        return Err(outcome.error), called;
      }
      if outcome.value.Replayed? {
        return Ok(RecordedResponse(Replayed, store.records[key])), called;
      }
      called := true;
      match handler
      case Returned(body, taskId, outboxEventId) =>
        store.MarkSucceeded(key, code, body, taskId, outboxEventId);
        result := Ok(GuardResult(Started, Some(code), Some(body), taskId, outboxEventId));
      case Raised(name, message) =>
        store.MarkFailed(key, name, ErrorBody(message));
        result := Err(HandlerRaised(name, message));
    }
  }
}
