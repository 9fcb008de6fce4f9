/** The transactional outbox table and the guarded updates that the repository issues on it. */
module Outbox {
  import opened Common
  import opened EventSchemas

  datatype Status = Pending | Publishing | Published | Failed | DeadLetter

  datatype Row = Row(
    status: Status,
    claimVersion: nat,
    attemptCount: nat,
    maxAttempts: int,
    nextRetryAt: Option<int>,
    lockedBy: Option<string>,
    lockedUntil: Option<int>,
    lastError: Option<string>,
    publishedAt: Option<int>,
    deadLetterReason: Option<string>)

  datatype ErrorKind = Transient | Permanent

  /** What a handler raised, already classified; `text` is the error's type and message. */
  datatype HandlerError = HandlerError(kind: ErrorKind, text: string)

  function Describe(error: HandlerError): string {
    (if error.kind.Transient? then "transient: " else "permanent: ") + error.text
  }

  function Added(maxAttempts: int): Row {
    Row(Pending, 0, 0, maxAttempts, None, None, None, None, None, None)
  }

  /** SQL's `column IS NULL OR column <= now`. */
  predicate NullOrPast(at: Option<int>, now: int) {
    at.None? || at.value <= now
  }

  predicate Eligible(row: Row, now: int) {
    || (&& (row.status.Pending? || row.status.Failed?)
        && NullOrPast(row.nextRetryAt, now)
        && NullOrPast(row.lockedUntil, now))
    || (row.status.Publishing? && row.lockedUntil.Some? && row.lockedUntil.value <= now)
  }

  function Claimed(row: Row, dispatcherId: string, lockUntil: int): Row {
    row.(status := Publishing,
         lockedBy := Some(dispatcherId),
         lockedUntil := Some(lockUntil),
         claimVersion := row.claimVersion + 1)
  }

  /** The guard of every completion: the row is still leased to this dispatcher under this claim. */
  predicate HoldsLease(row: Row, dispatcherId: string, claimVersion: nat, now: int) {
    && row.status.Publishing?
    && row.lockedBy == Some(dispatcherId)
    && row.claimVersion == claimVersion
    && row.lockedUntil.Some?
    && row.lockedUntil.value > now
  }

  function AsPublished(row: Row, now: int): Row {
    row.(status := Published,
         publishedAt := Some(now),
         lockedBy := None,
         lockedUntil := None,
         lastError := None)
  }

  predicate IsExhausted(snapshot: Row, error: HandlerError) {
    error.kind.Permanent? || snapshot.attemptCount + 1 >= snapshot.maxAttempts
  }

  /** The new values come from the claimant's snapshot, the other columns from the stored row. */
  function AsFailed(row: Row, snapshot: Row, error: HandlerError, retryDelay: int, now: int): Row {
    var marked := row.(attemptCount := snapshot.attemptCount + 1,
                       lastError := Some(Describe(error)),
                       lockedBy := None,
                       lockedUntil := None);
    if IsExhausted(snapshot, error) then
      marked.(status := DeadLetter, deadLetterReason := Some(Describe(error)), nextRetryAt := None)
    else
      marked.(status := Failed, nextRetryAt := Some(now + retryDelay))
  }

  function AsReplayed(row: Row): Row {
    row.(status := Pending,
         deadLetterReason := None,
         lastError := None,
         nextRetryAt := None,
         lockedBy := None,
         lockedUntil := None)
  }

  /** The eligible ids among `order`, keeping that order. */
  function EligibleIds(rows: map<string, Row>, order: seq<string>, now: int): (ids: seq<string>)
    ensures forall id :: id in ids <==> id in order && id in rows && Eligible(rows[id], now)
    ensures |ids| <= |order|
    decreases |order|
  {
    if order == [] then []
    else
      var last := order[|order| - 1];
      EligibleIds(rows, order[..|order| - 1], now) + if last in rows && Eligible(rows[last], now) then [last] else []
  }

  function Candidates(rows: map<string, Row>, order: seq<string>, now: int, limit: nat): seq<string> {
    var ids := EligibleIds(rows, order, now);
    if |ids| <= limit then ids else ids[..limit]
  }

  lemma {:induction false} EligibleIdsDistinct(rows: map<string, Row>, order: seq<string>, now: int)
    requires Distinct(order)
    ensures Distinct(EligibleIds(rows, order, now))
    decreases |order|
  {
    if order != [] {
      EligibleIdsDistinct(rows, order[..|order| - 1], now);
      assert order[|order| - 1] !in order[..|order| - 1];
    }
  }

  lemma CandidatesSound(rows: map<string, Row>, order: seq<string>, now: int, limit: nat)
    requires Distinct(order)
    ensures var ids := Candidates(rows, order, now, limit);
            Distinct(ids) && forall id | id in ids :: id in rows && Eligible(rows[id], now)
  {
    EligibleIdsDistinct(rows, order, now);
    var all := EligibleIds(rows, order, now);
    forall id | id in Candidates(rows, order, now, limit)
      ensures id in rows && Eligible(rows[id], now)
    {
      assert id in all;
    }
  }

  /** An event object in a caller's session: the row as it was last read. */
  datatype Event = Event(id: string, row: Row)

  /** `events` are the rows `ids`, in order, each claimed once; every other row is as before. */
  ghost predicate ClaimsExactly(before: map<string, Row>, after: map<string, Row>, ids: seq<string>,
                                events: seq<Event>, dispatcherId: string, lockUntil: int)
  {
    && |events| == |ids|
    && after.Keys == before.Keys
    && (forall id | id in before && id !in ids :: after[id] == before[id])
    && (forall i | 0 <= i < |ids| :: ClaimedOnce(before, after, ids[i], events[i], dispatcherId, lockUntil))
  }

  ghost predicate ClaimedOnce(before: map<string, Row>, after: map<string, Row>, id: string, event: Event,
                              dispatcherId: string, lockUntil: int)
  {
    && id in before && id in after
    && event == Event(id, Claimed(before[id], dispatcherId, lockUntil))
    && after[id] == event.row
  }

  lemma ClaimsOneMore(before: map<string, Row>, after: map<string, Row>, ids: seq<string>, id: string,
                      events: seq<Event>, dispatcherId: string, lockUntil: int)
    requires ClaimsExactly(before, after, ids, events, dispatcherId, lockUntil)
    requires id in before && id !in ids
    ensures var row := Claimed(before[id], dispatcherId, lockUntil);
            ClaimsExactly(before, after[id := row], ids + [id], events + [Event(id, row)], dispatcherId, lockUntil)
  {
    var row := Claimed(before[id], dispatcherId, lockUntil);
    forall i | 0 <= i < |ids + [id]|
      ensures ClaimedOnce(before, after[id := row], (ids + [id])[i], (events + [Event(id, row)])[i], dispatcherId, lockUntil)
    {
      if i < |ids| {
        assert ClaimedOnce(before, after, ids[i], events[i], dispatcherId, lockUntil);
      }
    }
  }

  lemma TakeOneMore(ids: seq<string>, k: nat)
    requires k < |ids|
    ensures ids[..k] + [ids[k]] == ids[..k + 1]
  {
  }

  /** The table and the claimed events after the conditional updates of `ids[..k]`; a miss changes neither. */
  function ClaimFirst(rows: map<string, Row>, ids: seq<string>, k: nat, dispatcherId: string, lockUntil: int, now: int):
    (map<string, Row>, seq<Event>)
    requires k <= |ids|
  {
    if k == 0 then (rows, [])
    else
      var (done, events) := ClaimFirst(rows, ids, k - 1, dispatcherId, lockUntil, now);
      var id := ids[k - 1];
      if id in done && Eligible(done[id], now) then
        var row := Claimed(done[id], dispatcherId, lockUntil);
        (done[id := row], events + [Event(id, row)])
      else (done, events)
  }

  lemma {:induction false} ClaimFirstExact(rows: map<string, Row>, ids: seq<string>, k: nat,
                                           dispatcherId: string, lockUntil: int, now: int)
    requires k <= |ids| && Distinct(ids)
    requires forall id | id in ids :: id in rows && Eligible(rows[id], now)
    ensures var (after, events) := ClaimFirst(rows, ids, k, dispatcherId, lockUntil, now);
            ClaimsExactly(rows, after, ids[..k], events, dispatcherId, lockUntil)
  {
    if k > 0 {
      ClaimFirstExact(rows, ids, k - 1, dispatcherId, lockUntil, now);
      var (done, events) := ClaimFirst(rows, ids, k - 1, dispatcherId, lockUntil, now);
      assert ids[k - 1] in ids && ids[k - 1] !in ids[..k - 1] && done[ids[k - 1]] == rows[ids[k - 1]];
      ClaimsOneMore(rows, done, ids[..k - 1], ids[k - 1], events, dispatcherId, lockUntil);
      TakeOneMore(ids, k - 1);
    }
  }

  function Batch(rows: map<string, Row>, order: seq<string>, limit: nat,
                 dispatcherId: string, lockUntil: int, now: int): (map<string, Row>, seq<Event>)
  {
    var ids := Candidates(rows, order, now, limit);
    ClaimFirst(rows, ids, |ids|, dispatcherId, lockUntil, now)
  }

  // ----- what a batch claims -----

  /** When a row waits for a dispatcher: it is new or has failed and neither a retry time nor a lock is ahead, or its
      dispatcher has let the lease run out. */
  predicate Due(row: Row, now: int) {
    match row.status
    case Publishing => row.lockedUntil.Some? && row.lockedUntil.value <= now
    case Published => false
    case DeadLetter => false
    case _ =>
      && (row.nextRetryAt.Some? ==> row.nextRetryAt.value <= now)
      && (row.lockedUntil.Some? ==> row.lockedUntil.value <= now)
  }

  /** How many ids of the list are due. */
  function DueCount(rows: map<string, Row>, order: seq<string>, now: int): nat
    decreases |order|
  {
    if order == [] then 0
    else DueCount(rows, order[..|order| - 1], now) + if DueAt(rows, order, now, |order| - 1) then 1 else 0
  }

  predicate DueAt(rows: map<string, Row>, order: seq<string>, now: int, p: int) {
    0 <= p < |order| && order[p] in rows && Due(rows[order[p]], now)
  }

  /** The ids stand in `order` at these places, which are due, and no due place before the last of them is left out. */
  predicate FirstInOrder(rows: map<string, Row>, order: seq<string>, now: int, ids: seq<string>, places: seq<nat>) {
    && |places| == |ids| && Increasing(places)
    && (forall k | 0 <= k < |ids| :: DueAt(rows, order, now, places[k]) && order[places[k]] == ids[k])
    && (forall p, k | 0 <= k < |ids| && 0 <= p < places[k] && DueAt(rows, order, now, p) :: p in places)
  }

  lemma TakenOnce(rows: map<string, Row>, order: seq<string>, now: int, ids: seq<string>, places: seq<nat>)
    requires Distinct(order) && FirstInOrder(rows, order, now, ids, places)
    ensures Distinct(ids)
  {
    forall i, j | 0 <= i < j < |ids|
      ensures ids[i] != ids[j]
    {
      assert order[places[i]] == ids[i] && order[places[j]] == ids[j];
    }
  }

  lemma DueIsEligible(row: Row, now: int)
    ensures Due(row, now) <==> Eligible(row, now)
  {
  }

  predicate Unleased(row: Row) {
    row.lockedBy == None && row.lockedUntil == None
  }

  /** A published row keeps its history, carries no error and no lease, and is never due again. */
  lemma PublishedColumns(row: Row, now: int, later: int)
    ensures var p := AsPublished(row, now);
            && p.status == Published && p.publishedAt == Some(now) && p.lastError == None && Unleased(p)
            && !Due(p, later)
            && p.attemptCount == row.attemptCount && p.claimVersion == row.claimVersion && p.maxAttempts == row.maxAttempts
            && p.nextRetryAt == row.nextRetryAt && p.deadLetterReason == row.deadLetterReason
  {
  }

  /** A failed row counts the attempt and records the error. It is due again when the delay is over, unless the error is
      permanent or the attempts are used up: a dead letter gives the error as its reason and is never due. */
  lemma FailedColumns(row: Row, snapshot: Row, error: HandlerError, retryDelay: int, now: int, later: int)
    ensures var f := AsFailed(row, snapshot, error, retryDelay, now);
            var retried := error.kind == Transient && f.attemptCount < snapshot.maxAttempts;
            && f.attemptCount == snapshot.attemptCount + 1 && Unleased(f)
            && f.lastError == Some((if error.kind == Transient then "transient: " else "permanent: ") + error.text)
            && f.status == (if retried then Failed else DeadLetter)
            && f.deadLetterReason == (if retried then row.deadLetterReason else f.lastError)
            && f.nextRetryAt == (if retried then Some(now + retryDelay) else None)
            && (Due(f, later) <==> retried && later >= now + retryDelay)
            && f.claimVersion == row.claimVersion && f.maxAttempts == row.maxAttempts && f.publishedAt == row.publishedAt
  {
  }

  /** A replayed row is due at any time and has forgotten its error, but not its attempts. */
  lemma ReplayedColumns(row: Row, later: int)
    ensures var r := AsReplayed(row);
            && r.status == Pending && Unleased(r) && r.lastError == None && r.deadLetterReason == None
            && Due(r, later)
            && r.attemptCount == row.attemptCount && r.maxAttempts == row.maxAttempts
            && r.claimVersion == row.claimVersion && r.publishedAt == row.publishedAt
  {
  }

  /** All due places, in order. */
  predicate DuePlaces(rows: map<string, Row>, order: seq<string>, now: int, ids: seq<string>, places: seq<nat>) {
    && |places| == |ids| && Increasing(places)
    && (forall k | 0 <= k < |ids| :: DueAt(rows, order, now, places[k]) && order[places[k]] == ids[k])
    && (forall p | 0 <= p < |order| && DueAt(rows, order, now, p) :: p in places)
  }

  lemma {:induction false} EligibleInOrder(rows: map<string, Row>, order: seq<string>,
                                           now: int) returns (places: seq<nat>)
    ensures DuePlaces(rows, order, now, EligibleIds(rows, order, now), places)
    ensures |EligibleIds(rows, order, now)| == DueCount(rows, order, now)
    decreases |order|
  {
    hide Due, Eligible;
    if order == [] {
      places := [];
    } else {
      var n := |order| - 1;
      var before := EligibleInOrder(rows, order[..n], now);
      if order[n] in rows {
        DueIsEligible(rows[order[n]], now);
      }
      places := if DueAt(rows, order, now, n) then before + [n] else before;
      OneMorePlace(rows, order, now, EligibleIds(rows, order[..n], now), before);
    }
  }

  lemma OneMorePlace(rows: map<string, Row>, order: seq<string>, now: int, ids: seq<string>, places: seq<nat>)
    requires order != [] && DuePlaces(rows, order[..|order| - 1], now, ids, places)
    ensures var n := |order| - 1;
            if DueAt(rows, order, now, n) then DuePlaces(rows, order, now, ids + [order[n]], places + [n])
            else DuePlaces(rows, order, now, ids, places)
  {
    hide Due;
    var n := |order| - 1;
    forall k | 0 <= k < |ids|
      ensures 0 <= places[k] < n && DueAt(rows, order, now, places[k]) && order[places[k]] == ids[k]
    {
      assert DueAt(rows, order[..n], now, places[k]);
    }
    forall p | 0 <= p < n && DueAt(rows, order, now, p)
      ensures p in places
    {
      assert DueAt(rows, order[..n], now, p);
    }
  }

  /** A batch claims the first `limit` due rows in the order of creation, all of them if there are fewer, each of them
      once, and touches no other row. Each claimed row is leased to the dispatcher under the next claim version and
      otherwise as before; the events handed out are the claimed rows. */
  lemma BatchExact(rows: map<string, Row>, order: seq<string>, limit: nat,
                   dispatcherId: string, lockUntil: int, now: int)
    returns (places: seq<nat>)
    requires Distinct(order)
    ensures var (after, events) := Batch(rows, order, limit, dispatcherId, lockUntil, now);
            var ids := seq(|events|, i requires 0 <= i < |events| => events[i].id);
            && |events| == Min(limit, DueCount(rows, order, now))
            && FirstInOrder(rows, order, now, ids, places)
            && after.Keys == rows.Keys
            && (forall id | id in rows && id !in ids :: after[id] == rows[id])
            && (forall i | 0 <= i < |events| :: after[ids[i]] == events[i].row)
            && (forall i | 0 <= i < |events| ::
                  var r := rows[ids[i]];
                  events[i].row == Row(Publishing, r.claimVersion + 1, r.attemptCount, r.maxAttempts, r.nextRetryAt,
                                       Some(dispatcherId), Some(lockUntil), r.lastError, r.publishedAt, r.deadLetterReason))
  {
    hide FirstInOrder, Due, Eligible;
    var ids := Candidates(rows, order, now, limit);
    CandidatesSound(rows, order, now, limit);
    ClaimFirstExact(rows, ids, |ids|, dispatcherId, lockUntil, now);
    assert ids[..|ids|] == ids;
    var all := EligibleInOrder(rows, order, now);
    places := all[..|ids|];
    FirstOfDue(rows, order, now, EligibleIds(rows, order, now), all, |ids|);
    var (after, events) := Batch(rows, order, limit, dispatcherId, lockUntil, now);
    ClaimedRows(rows, after, ids, events, dispatcherId, lockUntil);
  }

  lemma FirstOfDue(rows: map<string, Row>, order: seq<string>, now: int, ids: seq<string>, all: seq<nat>, n: nat)
    requires DuePlaces(rows, order, now, ids, all) && n <= |ids|
    ensures FirstInOrder(rows, order, now, ids[..n], all[..n])
  {
    hide Due;
    var places := all[..n];
    forall p, k | 0 <= k < n && 0 <= p < places[k] && DueAt(rows, order, now, p)
      ensures p in places
    {
      var j :| 0 <= j < |all| && all[j] == p;
      assert j < k;
      assert places[j] == p;
    }
  }

  lemma ClaimedRows(rows: map<string, Row>, after: map<string, Row>, ids: seq<string>, events: seq<Event>,
                    dispatcherId: string, lockUntil: int)
    requires ClaimsExactly(rows, after, ids, events, dispatcherId, lockUntil)
    ensures seq(|events|, i requires 0 <= i < |events| => events[i].id) == ids
    ensures forall i | 0 <= i < |events| :: ids[i] in rows && after[ids[i]] == events[i].row == Claimed(rows[ids[i]], dispatcherId, lockUntil)
  {
    forall i | 0 <= i < |ids|
      ensures ClaimedOnce(rows, after, ids[i], events[i], dispatcherId, lockUntil)
    {
    }
  }

  class OutboxRepository {
    var rows: map<string, Row>
    /** Every id, by creation time. */
    var createdOrder: seq<string>

    ghost predicate Valid()
      reads this
    {
      Distinct(createdOrder) && forall id :: id in createdOrder <==> id in rows
    }

    constructor ()
      ensures Valid() && rows == map[]
    {
      rows, createdOrder := map[], [];
    }

    /** `registry` holds the registered schemas, when the repository has a registry. */
    method Add(id: string, eventType: string, eventVersion: int, tenantId: string, payload: Payload, maxAttempts: int,
               registry: Option<Schemas>)
      returns (result: Result<Event>)
      requires Valid() && id !in rows
      modifies this
      ensures Valid()
      ensures var fault := if registry.Some? then Fault(registry.value, eventType, eventVersion, tenantId, payload)
                           else CoreFault(tenantId, payload);
              if fault.None? then
                && rows == old(rows)[id := Added(maxAttempts)]
                && createdOrder == old(createdOrder) + [id]
                && result == Ok(Event(id, Added(maxAttempts)))
              else
                && rows == old(rows) && createdOrder == old(createdOrder)
                && result == Err(if fault.value.OtherTenant? then TenantContextConflict else ValidationError)
    {
      if registry.Some? {
        var fault := Fault(registry.value, eventType, eventVersion, tenantId, payload);
        if fault.Some? {
          return Err(if fault.value.OtherTenant? then TenantContextConflict else ValidationError);
        }
      } else {
        if !(CORE_FIELDS <= payload.Keys) {
          return Err(ValidationError);
        }
        if payload["tenant_id"] != Text(tenantId) {
          return Err(TenantContextConflict);
        }
      }
      rows := rows[id := Added(maxAttempts)];
      createdOrder := createdOrder + [id];
      result := Ok(Event(id, rows[id]));
    }

    method TryClaimEvent(id: string, dispatcherId: string, lockUntil: int, now: int)
      returns (event: Option<Event>)
      requires Valid()
      modifies this`rows
      ensures Valid()
      ensures id in old(rows) && Eligible(old(rows)[id], now) ==>
                && rows == old(rows)[id := Claimed(old(rows)[id], dispatcherId, lockUntil)]
                && event == Some(Event(id, rows[id]))
      ensures !(id in old(rows) && Eligible(old(rows)[id], now)) ==> rows == old(rows) && event == None
      ensures event.Some? <==> id in old(rows) && Due(old(rows)[id], now)
    {
      if id !in rows || !Eligible(rows[id], now) {
        return None;
      }
      rows := rows[id := Claimed(rows[id], dispatcherId, lockUntil)];
      event := Some(Event(id, rows[id]));
    }

    method ClaimEach(ids: seq<string>, dispatcherId: string, lockUntil: int, now: int) returns (events: seq<Event>)
      requires Valid()
      modifies this`rows
      ensures Valid()
      ensures (rows, events) == ClaimFirst(old(rows), ids, |ids|, dispatcherId, lockUntil, now)
    {
      events := [];
      for k := 0 to |ids|
        invariant Valid()
        invariant (rows, events) == ClaimFirst(old(rows), ids, k, dispatcherId, lockUntil, now)
      {
        var event := TryClaimEvent(ids[k], dispatcherId, lockUntil, now);
        if event.Some? {
          events := events + [event.value];
        }
      }
    }

    method ClaimBatch(dispatcherId: string, batchSize: nat, lockSeconds: int, now: int)
      returns (events: seq<Event>)
      requires Valid()
      modifies this`rows
      ensures Valid()
      ensures (rows, events) == Batch(old(rows), createdOrder, batchSize, dispatcherId, now + Seconds(lockSeconds), now)
    {
      var ids := Candidates(rows, createdOrder, now, batchSize);
      var lockUntil := now + Seconds(lockSeconds);
      events := ClaimEach(ids, dispatcherId, lockUntil, now);
    }

    /** The guarded update: applied exactly when the lease is held, and the caller's event is then re-read. */
    method ConditionedDispatchUpdate(event: Event, dispatcherId: string, values: Row, now: int)
      returns (result: Result<Event>, refreshed: Option<Event>)
      requires Valid()
      modifies this`rows
      ensures Valid()
      ensures event.id in old(rows) && HoldsLease(old(rows)[event.id], dispatcherId, event.row.claimVersion, now) ==>
                rows == old(rows)[event.id := values] && result == Ok(Event(event.id, values))
      ensures !(event.id in old(rows) && HoldsLease(old(rows)[event.id], dispatcherId, event.row.claimVersion, now)) ==>
                rows == old(rows) && result == Err(Conflict)
      ensures refreshed == if event.id in rows then Some(Event(event.id, rows[event.id])) else None
    {
      if event.id in rows && HoldsLease(rows[event.id], dispatcherId, event.row.claimVersion, now) {
        rows := rows[event.id := values];
        result := Ok(Event(event.id, values));
      } else {
        result := Err(Conflict);
      }
      refreshed := if event.id in rows then Some(Event(event.id, rows[event.id])) else None;
    }

    method MarkPublished(event: Event, dispatcherId: string, now: int)
      returns (result: Result<Event>, refreshed: Option<Event>)
      requires Valid()
      modifies this`rows
      ensures Valid()
      ensures event.id in old(rows) && HoldsLease(old(rows)[event.id], dispatcherId, event.row.claimVersion, now) ==>
                rows == old(rows)[event.id := AsPublished(old(rows)[event.id], now)] && result == Ok(Event(event.id, rows[event.id]))
      ensures !(event.id in old(rows) && HoldsLease(old(rows)[event.id], dispatcherId, event.row.claimVersion, now)) ==>
                rows == old(rows) && result == Err(Conflict)
      ensures refreshed == if event.id in rows then Some(Event(event.id, rows[event.id])) else None
    {
      var stored := if event.id in rows then rows[event.id] else event.row;
      result, refreshed := ConditionedDispatchUpdate(event, dispatcherId, AsPublished(stored, now), now);
    }

    method MarkFailed(event: Event, error: HandlerError, dispatcherId: string, retryDelaySeconds: int, now: int)
      returns (result: Result<Event>, refreshed: Option<Event>)
      requires Valid()
      modifies this`rows
      ensures Valid()
      ensures event.id in old(rows) && HoldsLease(old(rows)[event.id], dispatcherId, event.row.claimVersion, now) ==>
                && rows == old(rows)[event.id :=
                     AsFailed(old(rows)[event.id], event.row, error, Seconds(retryDelaySeconds), now)]
                && result == Ok(Event(event.id, rows[event.id]))
      ensures !(event.id in old(rows) && HoldsLease(old(rows)[event.id], dispatcherId, event.row.claimVersion, now)) ==>
                rows == old(rows) && result == Err(Conflict)
      ensures refreshed == if event.id in rows then Some(Event(event.id, rows[event.id])) else None
    {
      var stored := if event.id in rows then rows[event.id] else event.row;
      var values := AsFailed(stored, event.row, error, Seconds(retryDelaySeconds), now);
      result, refreshed := ConditionedDispatchUpdate(event, dispatcherId, values, now);
    }

    /** Reads the row and replays it in one transaction. */
    method ReplayDeadLetterById(id: string) returns (result: Result<Event>)
      requires Valid()
      modifies this`rows
      ensures Valid()
      ensures id !in old(rows) ==> result == Err(NotFound) && rows == old(rows)
      ensures id in old(rows) && !old(rows)[id].status.DeadLetter? ==> result == Err(Conflict) && rows == old(rows)
      ensures id in old(rows) && old(rows)[id].status.DeadLetter? ==>
                rows == old(rows)[id := AsReplayed(old(rows)[id])] && result == Ok(Event(id, rows[id]))
    {
      if id !in rows {
        return Err(NotFound);
      }
      if !rows[id].status.DeadLetter? {
        return Err(Conflict);
      }
      rows := rows[id := AsReplayed(rows[id])];
      result := Ok(Event(id, rows[id]));
    }
  }
}
