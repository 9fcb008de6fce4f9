/** The dispatch loop: it claims a batch, has each event handled, and completes each row in turn. */
module Dispatcher {
  import opened Common
  import opened Outbox

  datatype DispatchStats = DispatchStats(claimed: nat, published: nat, failed: nat, deadLettered: nat)

  /** The table and the counters part-way through the loop; `raised` once a completion found its lease gone. */
  datatype Progress = Progress(rows: map<string, Row>, published: nat, failed: nat, deadLettered: nat, raised: bool)

  /** The row once its event was handled: published, or failed with the event's attempt count. */
  function Settled(row: Row, e: Event, error: Option<HandlerError>, retryDelay: int, now: int): Row {
    match error
    case None => AsPublished(row, now)
    case Some(err) => AsFailed(row, e.row, err, retryDelay, now)
  }

  predicate Holds(rows: map<string, Row>, e: Event, dispatcherId: string, now: int) {
    e.id in rows && HoldsLease(rows[e.id], dispatcherId, e.row.claimVersion, now)
  }

  /** The first k claimed events in turn. `outcome(id)` is the error of handling the event, if any, and `at(id)` the
      clock when its row is completed. A completion that is refused ends the loop. */
  function SettleFirst(rows: map<string, Row>, events: seq<Event>, k: nat, dispatcherId: string, retryDelay: int,
                       outcome: string -> Option<HandlerError>, at: string -> int): Progress
    requires k <= |events|
  {
    if k == 0 then Progress(rows, 0, 0, 0, false)
    else
      var p := SettleFirst(rows, events, k - 1, dispatcherId, retryDelay, outcome, at);
      var e := events[k - 1];
      if p.raised then p
      else if !Holds(p.rows, e, dispatcherId, at(e.id)) then p.(raised := true)
      else
        var row := Settled(p.rows[e.id], e, outcome(e.id), retryDelay, at(e.id));
        Progress(p.rows[e.id := row],
                 p.published + if outcome(e.id).None? then 1 else 0,
                 p.failed + if outcome(e.id).Some? then 1 else 0,
                 p.deadLettered + if outcome(e.id).Some? && row.status.DeadLetter? then 1 else 0,
                 false)
  }

  predicate DistinctIds(events: seq<Event>) {
    forall i, j | 0 <= i < j < |events| :: events[i].id != events[j].id
  }

  /** Events as a claim hands them out: each agrees with its row, leased to this dispatcher. */
  predicate FreshlyClaimed(rows: map<string, Row>, events: seq<Event>, dispatcherId: string, lockUntil: int) {
    && DistinctIds(events)
    && forall i | 0 <= i < |events| ::
         && events[i].id in rows && rows[events[i].id] == events[i].row
         && events[i].row.status.Publishing?
         && events[i].row.lockedBy == Some(dispatcherId)
         && events[i].row.lockedUntil == Some(lockUntil)
  }

  predicate InTime(events: seq<Event>, k: nat, lockUntil: int, at: string -> int)
    requires k <= |events|
  {
    forall i | 0 <= i < k :: at(events[i].id) < lockUntil
  }

  /** Every event that was not refused is counted once, as published or as failed. */
  lemma {:induction false} CountsAddUp(rows: map<string, Row>, events: seq<Event>, k: nat, dispatcherId: string,
                                       retryDelay: int, outcome: string -> Option<HandlerError>, at: string -> int)
    requires k <= |events|
    ensures var p := SettleFirst(rows, events, k, dispatcherId, retryDelay, outcome, at);
            && p.published + p.failed <= k && (!p.raised ==> p.published + p.failed == k)
            && p.deadLettered <= p.failed
  {
    hide Holds, Settled;
    if k > 0 {
      CountsAddUp(rows, events, k - 1, dispatcherId, retryDelay, outcome, at);
    }
  }

  /** The places, among the first k, of the events that were handled without an error. */
  function Handled(events: seq<Event>, k: nat, outcome: string -> Option<HandlerError>): set<int>
    requires k <= |events|
  {
    set i | 0 <= i < k && outcome(events[i].id) == None
  }

  /** The places of the events whose error is permanent or used up their attempts. */
  function GivenUp(events: seq<Event>, k: nat, outcome: string -> Option<HandlerError>): set<int>
    requires k <= |events|
  {
    set i | 0 <= i < k && outcome(events[i].id).Some?
            && (outcome(events[i].id).value.kind == Permanent || events[i].row.attemptCount + 1 >= events[i].row.maxAttempts)
  }

  /** A loop that does not raise counts as published the events handled without an error, as failed all others, and
      as dead letters those that get no further attempt. */
  lemma {:induction false} CountsAreOutcomes(rows: map<string, Row>, events: seq<Event>, k: nat, dispatcherId: string,
                                             retryDelay: int, outcome: string -> Option<HandlerError>, at: string -> int)
    requires k <= |events|
    ensures var p := SettleFirst(rows, events, k, dispatcherId, retryDelay, outcome, at);
            !p.raised ==>
              && p.published == |Handled(events, k, outcome)| && p.failed == k - |Handled(events, k, outcome)|
              && p.deadLettered == |GivenUp(events, k, outcome)|
  {
    hide Handled, GivenUp, Settled, HoldsLease;
    if k == 0 {
      NoneHandled(events, outcome);
    } else {
      CountsAreOutcomes(rows, events, k - 1, dispatcherId, retryDelay, outcome, at);
      OneMoreHandled(events, k - 1, outcome);
      var p := SettleFirst(rows, events, k - 1, dispatcherId, retryDelay, outcome, at);
      var e := events[k - 1];
      if e.id in p.rows && outcome(e.id).Some? {
        GivesUpIff(p.rows[e.id], e, outcome(e.id).value, retryDelay, at(e.id));
      }
    }
  }

  lemma NoneHandled(events: seq<Event>, outcome: string -> Option<HandlerError>)
    ensures Handled(events, 0, outcome) == {} && GivenUp(events, 0, outcome) == {}
  {
  }

  lemma OneMoreHandled(events: seq<Event>, n: nat, outcome: string -> Option<HandlerError>)
    requires n < |events|
    ensures var error := outcome(events[n].id);
            var givenUp := error.Some?
                           && (error.value.kind == Permanent || events[n].row.attemptCount + 1 >= events[n].row.maxAttempts);
            && |Handled(events, n + 1, outcome)| == |Handled(events, n, outcome)| + (if error == None then 1 else 0)
            && |GivenUp(events, n + 1, outcome)| == |GivenUp(events, n, outcome)| + (if givenUp then 1 else 0)
  {
    assert Handled(events, n + 1, outcome) ==
           Handled(events, n, outcome) + if outcome(events[n].id) == None then {n} else {};
    assert GivenUp(events, n + 1, outcome) ==
           GivenUp(events, n, outcome) + if n in GivenUp(events, n + 1, outcome) then {n} else {};
  }

  lemma GivesUpIff(row: Row, e: Event, error: HandlerError, retryDelay: int, now: int)
    ensures Settled(row, e, Some(error), retryDelay, now).status.DeadLetter? <==>
            error.kind == Permanent || e.row.attemptCount + 1 >= e.row.maxAttempts
  {
  }

  /** Rows of other events, and of events whose turn has not come, are left alone. */
  lemma {:induction false} OthersUntouched(rows: map<string, Row>, events: seq<Event>, k: nat, dispatcherId: string,
                                           retryDelay: int, outcome: string -> Option<HandlerError>, at: string -> int, id: string)
    requires k <= |events|
    requires forall i | 0 <= i < k :: events[i].id != id
    ensures var p := SettleFirst(rows, events, k, dispatcherId, retryDelay, outcome, at);
            p.rows.Keys == rows.Keys && (id in rows ==> p.rows[id] == rows[id])
  {
    hide Settled;
    if k > 0 {
      OthersUntouched(rows, events, k - 1, dispatcherId, retryDelay, outcome, at, id);
    }
  }

  /** When the turn of event k comes, its row is still as claimed, and the lease is held until it ends. */
  lemma TurnOf(rows: map<string, Row>, events: seq<Event>, k: nat, dispatcherId: string, lockUntil: int,
               retryDelay: int, outcome: string -> Option<HandlerError>, at: string -> int)
    requires k < |events| && FreshlyClaimed(rows, events, dispatcherId, lockUntil)
    ensures var p := SettleFirst(rows, events, k, dispatcherId, retryDelay, outcome, at);
            var e := events[k];
            && e.id in p.rows && p.rows[e.id] == e.row
            && (Holds(p.rows, e, dispatcherId, at(e.id)) <==> at(e.id) < lockUntil)
  {
    hide Settled, SettleFirst;
    OthersUntouched(rows, events, k, dispatcherId, retryDelay, outcome, at, events[k].id);
  }

  /** The loop raises exactly when some event is completed at or after the end of the lease. */
  lemma {:induction false} RaisesIffLate(rows: map<string, Row>, events: seq<Event>, k: nat, dispatcherId: string,
                                         lockUntil: int,
                                         retryDelay: int, outcome: string -> Option<HandlerError>, at: string -> int)
    requires k <= |events| && FreshlyClaimed(rows, events, dispatcherId, lockUntil)
    ensures SettleFirst(rows, events, k, dispatcherId, retryDelay, outcome, at).raised <==> !InTime(events, k, lockUntil, at)
  {
    hide Settled, Holds, FreshlyClaimed;
    if k > 0 {
      RaisesIffLate(rows, events, k - 1, dispatcherId, lockUntil, retryDelay, outcome, at);
      TurnOf(rows, events, k - 1, dispatcherId, lockUntil, retryDelay, outcome, at);
    }
  }

  lemma SameIdSameEvent(rows: map<string, Row>, events: seq<Event>, dispatcherId: string, lockUntil: int, i: nat, j: nat)
    requires i < j < |events| && FreshlyClaimed(rows, events, dispatcherId, lockUntil)
    ensures events[i].id != events[j].id
  {
  }

  /** While every completion comes before the lease ends, each row is settled by its own event's outcome. */
  lemma {:induction false} SettlesInTime(rows: map<string, Row>, events: seq<Event>, k: nat, dispatcherId: string,
                                         lockUntil: int,
                                         retryDelay: int, outcome: string -> Option<HandlerError>, at: string -> int, j: nat)
    requires j < k <= |events| && FreshlyClaimed(rows, events, dispatcherId, lockUntil)
    requires InTime(events, k, lockUntil, at)
    ensures var p := SettleFirst(rows, events, k, dispatcherId, retryDelay, outcome, at);
            var e := events[j];
            && e.id in p.rows
            && p.rows[e.id] == match outcome(e.id)
                               case None => AsPublished(e.row, at(e.id))
                               case Some(error) => AsFailed(e.row, e.row, error, retryDelay, at(e.id))
  {
    hide Holds, FreshlyClaimed, AsPublished, AsFailed;
    RaisesIffLate(rows, events, k - 1, dispatcherId, lockUntil, retryDelay, outcome, at);
    TurnOf(rows, events, k - 1, dispatcherId, lockUntil, retryDelay, outcome, at);
    if j < k - 1 {
      SettlesInTime(rows, events, k - 1, dispatcherId, lockUntil, retryDelay, outcome, at, j);
      SameIdSameEvent(rows, events, dispatcherId, lockUntil, j, k - 1);
    }
  }

  lemma {:induction false} RaiseSticks(rows: map<string, Row>, events: seq<Event>, k: nat, n: nat, dispatcherId: string,
                                       retryDelay: int, outcome: string -> Option<HandlerError>, at: string -> int)
    requires k <= n <= |events|
    requires SettleFirst(rows, events, k, dispatcherId, retryDelay, outcome, at).raised
    ensures SettleFirst(rows, events, n, dispatcherId, retryDelay, outcome, at)
            == SettleFirst(rows, events, k, dispatcherId, retryDelay, outcome, at)
  {
    if k < n {
      RaiseSticks(rows, events, k, n - 1, dispatcherId, retryDelay, outcome, at);
    }
  }

  /** The first completion that comes at or after the end of the lease is refused and ends the loop: its row and
      all later ones keep their leases. */
  lemma StopsAtFirstLate(rows: map<string, Row>, events: seq<Event>, first: nat, dispatcherId: string, lockUntil: int,
                         retryDelay: int, outcome: string -> Option<HandlerError>, at: string -> int, j: nat)
    requires first <= j < |events| && FreshlyClaimed(rows, events, dispatcherId, lockUntil)
    requires InTime(events, first, lockUntil, at) && at(events[first].id) >= lockUntil
    ensures var p := SettleFirst(rows, events, |events|, dispatcherId, retryDelay, outcome, at);
            && p == SettleFirst(rows, events, first, dispatcherId, retryDelay, outcome, at).(raised := true)
            && events[j].id in p.rows && p.rows[events[j].id] == events[j].row
  {
    hide Holds, Settled;
    TurnOf(rows, events, first, dispatcherId, lockUntil, retryDelay, outcome, at);
    RaisesIffLate(rows, events, first, dispatcherId, lockUntil, retryDelay, outcome, at);
    RaiseSticks(rows, events, first + 1, |events|, dispatcherId, retryDelay, outcome, at);
    OthersUntouched(rows, events, first, dispatcherId, retryDelay, outcome, at, events[j].id);
  }

  lemma BatchIsFreshlyClaimed(rows: map<string, Row>, order: seq<string>, limit: nat, dispatcherId: string,
                              lockUntil: int, now: int)
    requires Distinct(order)
    ensures var (after, events) := Batch(rows, order, limit, dispatcherId, lockUntil, now);
            FreshlyClaimed(after, events, dispatcherId, lockUntil)
  {
    var places := BatchExact(rows, order, limit, dispatcherId, lockUntil, now);
    hide Batch, Due, DueCount, FirstInOrder;
    var (after, events) := Batch(rows, order, limit, dispatcherId, lockUntil, now);
    var ids := seq(|events|, i requires 0 <= i < |events| => events[i].id);
    TakenOnce(rows, order, now, ids, places);
    assert forall i | 0 <= i < |events| :: ids[i] == events[i].id && after[ids[i]] == events[i].row;
  }

  class OutboxDispatcher {
    const repository: OutboxRepository
    const dispatcherId: string
    const batchSize: nat
    const retryDelaySeconds: int

    constructor (repository: OutboxRepository, dispatcherId: string, batchSize: nat, retryDelaySeconds: int)
      ensures this.repository == repository && this.dispatcherId == dispatcherId
      ensures this.batchSize == batchSize && this.retryDelaySeconds == retryDelaySeconds
    {
      this.repository, this.dispatcherId, this.batchSize, this.retryDelaySeconds := repository, dispatcherId, batchSize, retryDelaySeconds;
    }

    method Complete(event: Event, error: Option<HandlerError>, now: int) returns (marked: Result<Event>)
      requires repository.Valid()
      modifies repository`rows
      ensures repository.Valid()
      ensures !Holds(old(repository.rows), event, dispatcherId, now) ==> repository.rows == old(repository.rows) && marked == Err(Conflict)
      ensures Holds(old(repository.rows), event, dispatcherId, now) ==>
                var row := Settled(old(repository.rows)[event.id], event, error, Seconds(retryDelaySeconds), now);
                repository.rows == old(repository.rows)[event.id := row] && marked == Ok(Event(event.id, row))
    {
      var refreshed;
      match error
      case Some(err) => marked, refreshed := repository.MarkFailed(event, err, dispatcherId, retryDelaySeconds, now);
      case None => marked, refreshed := repository.MarkPublished(event, dispatcherId, now);
    }

    method Settle(events: seq<Event>, outcome: string -> Option<HandlerError>, at: string -> int)
      returns (result: Result<DispatchStats>)
      requires repository.Valid()
      modifies repository`rows
      ensures repository.Valid()
      ensures var p := SettleFirst(old(repository.rows), events, |events|, dispatcherId, Seconds(retryDelaySeconds), outcome, at);
              && repository.rows == p.rows
              && result == if p.raised then Err(Conflict)
                           else Ok(DispatchStats(|events|, p.published, p.failed, p.deadLettered))
    {
      hide Holds, Settled;
      var published, failed, deadLettered := 0, 0, 0;
      for k := 0 to |events|
        invariant repository.Valid()
        invariant Progress(repository.rows, published, failed, deadLettered, false)
                  == SettleFirst(old(repository.rows), events, k, dispatcherId, Seconds(retryDelaySeconds), outcome, at)
      {
        var error := outcome(events[k].id);
        var marked := Complete(events[k], error, at(events[k].id));
        if marked.Err? {
          RaiseSticks(old(repository.rows), events, k + 1, |events|, dispatcherId, Seconds(retryDelaySeconds), outcome, at);
          return Err(marked.error);
        }
        if error.Some? {
          failed := failed + 1;
          if marked.value.row.status.DeadLetter? {
            deadLettered := deadLettered + 1;
          }
        } else {
          published := published + 1;
        }
      }
      result := Ok(DispatchStats(|events|, published, failed, deadLettered));
    }

    /** One pass. The claim uses the repository's default lease of 60 seconds. */
    method DispatchClaimed(now: int, outcome: string -> Option<HandlerError>, at: string -> int)
      returns (result: Result<DispatchStats>)
      requires repository.Valid()
      modifies repository`rows
      ensures repository.Valid()
      ensures var (claimed, events) := Batch(old(repository.rows), repository.createdOrder, batchSize, dispatcherId, now + Seconds(60), now);
              var p := SettleFirst(claimed, events, |events|, dispatcherId, Seconds(retryDelaySeconds), outcome, at);
              && FreshlyClaimed(claimed, events, dispatcherId, now + Seconds(60))
              && repository.rows == p.rows
              && result == if p.raised then Err(Conflict)
                           else Ok(DispatchStats(|events|, p.published, p.failed, p.deadLettered))
    {
      BatchIsFreshlyClaimed(repository.rows, repository.createdOrder, batchSize, dispatcherId, now + Seconds(60), now);
      var events := repository.ClaimBatch(dispatcherId, batchSize, 60, now);
      result := Settle(events, outcome, at);
    }
  }
}
