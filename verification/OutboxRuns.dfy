/** Every interleaving of dispatchers on one outbox row.

    Any number of holders keep an event object read from the row; dispatcher names may be shared, clock
    readings are arbitrary, and each repository call is one atomic step. */
module OutboxRuns {
  import opened Common
  import opened Outbox

  /** The history of marks that took effect. */
  datatype Mark =
    | PublishedMark(version: nat)
    | FailedMark(version: nat, kind: ErrorKind)
    | ReplayMark

  /** `held` maps a holder to its event object, as last read. */
  datatype System = System(row: Row, held: map<nat, Row>, marks: seq<Mark>)

  datatype Step =
    | Claim(holder: nat, dispatcherId: string, lockUntil: int, now: int)
    | Publish(holder: nat, dispatcherId: string, now: int)
    | Fail(holder: nat, dispatcherId: string, error: HandlerError, retryDelay: int, now: int)
    | Read(holder: nat)
    | Replay

  function Init(maxAttempts: int): System {
    System(Added(maxAttempts), map[], [])
  }

  /** Both outcomes of a completion re-read the caller's event object. */
  function Next(s: System, step: Step): System {
    match step
    case Claim(h, d, lockUntil, now) =>
      if Eligible(s.row, now) then
        var row := Claimed(s.row, d, lockUntil);
        System(row, s.held[h := row], s.marks)
      else s
    case Publish(h, d, now) =>
      if h !in s.held then s
      else if HoldsLease(s.row, d, s.held[h].claimVersion, now) then
        var row := AsPublished(s.row, now);
        System(row, s.held[h := row], s.marks + [PublishedMark(s.held[h].claimVersion)])
      else s.(held := s.held[h := s.row])
    case Fail(h, d, error, retryDelay, now) =>
      if h !in s.held then s
      else if HoldsLease(s.row, d, s.held[h].claimVersion, now) then
        var row := AsFailed(s.row, s.held[h], error, retryDelay, now);
        System(row, s.held[h := row], s.marks + [FailedMark(s.held[h].claimVersion, error.kind)])
      else s.(held := s.held[h := s.row])
    case Read(h) => s.(held := s.held[h := s.row])
    case Replay =>
      if s.row.status.DeadLetter? then System(AsReplayed(s.row), s.held, s.marks + [ReplayMark]) else s
  }

  function Run(s: System, steps: seq<Step>): System
    decreases |steps|
  {
    if steps == [] then s else Run(Next(s, steps[0]), steps[1..])
  }

  // ----- what the history says -----

  function Failures(marks: seq<Mark>): nat {
    if marks == [] then 0
    else Failures(marks[..|marks| - 1]) + (if marks[|marks| - 1].FailedMark? then 1 else 0)
  }

  function Completions(marks: seq<Mark>): nat {
    if marks == [] then 0
    else Completions(marks[..|marks| - 1]) + (if marks[|marks| - 1].ReplayMark? then 0 else 1)
  }

  /** Failed marks since the last replay, or since the row was added. */
  function FailuresSinceReplay(marks: seq<Mark>): (n: nat)
    ensures n <= Failures(marks)
  {
    if marks == [] || marks[|marks| - 1].ReplayMark? then 0
    else FailuresSinceReplay(marks[..|marks| - 1]) + (if marks[|marks| - 1].FailedMark? then 1 else 0)
  }

  /** How many failed marks a period between replays has room for. */
  function Allowance(marks: seq<Mark>, maxAttempts: int): int {
    Max(1, maxAttempts - (Failures(marks) - FailuresSinceReplay(marks)))
  }

  predicate VersionsIncrease(marks: seq<Mark>) {
    forall i, j | 0 <= i < j < |marks| ::
      !marks[i].ReplayMark? && !marks[j].ReplayMark? ==> marks[i].version < marks[j].version
  }

  predicate VersionsBelow(marks: seq<Mark>, bound: nat) {
    forall i | 0 <= i < |marks| :: !marks[i].ReplayMark? ==> 1 <= marks[i].version < bound
  }

  // ----- the invariant -----

  predicate LeaseShape(row: Row) {
    && (row.status.Publishing? <==> row.lockedBy.Some?)
    && (row.status.Publishing? <==> row.lockedUntil.Some?)
    && (row.status.Publishing? ==> row.claimVersion >= 1)
  }

  /** A snapshot taken under the claim that is still open is the row itself. */
  predicate SnapshotsAgree(s: System) {
    forall h | h in s.held ::
      && s.held[h].claimVersion <= s.row.claimVersion
      && (s.row.status.Publishing? && s.held[h].claimVersion == s.row.claimVersion ==> s.held[h] == s.row)
  }

  predicate AttemptsAccounted(row: Row, marks: seq<Mark>) {
    && row.attemptCount == Failures(marks)
    && (!row.status.DeadLetter? ==> FailuresSinceReplay(marks) < Allowance(marks, row.maxAttempts))
    && (row.status.DeadLetter? ==>
          && marks != [] && marks[|marks| - 1].FailedMark?
          && FailuresSinceReplay(marks) <= Allowance(marks, row.maxAttempts)
          && (marks[|marks| - 1].kind.Transient? ==> FailuresSinceReplay(marks) == Allowance(marks, row.maxAttempts)))
  }

  predicate Inv(s: System) {
    && LeaseShape(s.row)
    && SnapshotsAgree(s)
    && VersionsIncrease(s.marks)
    && VersionsBelow(s.marks, if s.row.status.Publishing? then s.row.claimVersion else s.row.claimVersion + 1)
    && AttemptsAccounted(s.row, s.marks)
    && (s.row.status.Published? <==> s.marks != [] && s.marks[|s.marks| - 1].PublishedMark?)
  }

  lemma HistoryGrows(marks: seq<Mark>, mark: Mark)
    ensures Failures(marks + [mark]) == Failures(marks) + if mark.FailedMark? then 1 else 0
    ensures Completions(marks + [mark]) == Completions(marks) + if mark.ReplayMark? then 0 else 1
    ensures FailuresSinceReplay(marks + [mark]) ==
              if mark.ReplayMark? then 0 else FailuresSinceReplay(marks) + if mark.FailedMark? then 1 else 0
  {
    assert (marks + [mark])[..|marks|] == marks;
  }

  lemma NextVersions(s: System, step: Step)
    requires Inv(s)
    ensures var t := Next(s, step);
            && VersionsIncrease(t.marks)
            && VersionsBelow(t.marks, if t.row.status.Publishing? then t.row.claimVersion else t.row.claimVersion + 1)
  {
  }

  lemma NextSnapshots(s: System, step: Step)
    requires Inv(s)
    ensures var t := Next(s, step); LeaseShape(t.row) && SnapshotsAgree(t)
  {
  }

  lemma NextPublished(s: System, step: Step)
    requires Inv(s)
    ensures var t := Next(s, step); t.row.status.Published? <==> t.marks != [] && t.marks[|t.marks| - 1].PublishedMark?
  {
  }

  /** A failed mark that took effect: the attempt is counted, and the row dies when there is no room left. */
  lemma FailureAccounted(row: Row, error: HandlerError, retryDelay: int, now: int, marks: seq<Mark>, version: nat)
    requires AttemptsAccounted(row, marks) && !row.status.DeadLetter?
    ensures AttemptsAccounted(AsFailed(row, row, error, retryDelay, now), marks + [FailedMark(version, error.kind)])
  {
    hide Failures, FailuresSinceReplay;
    HistoryGrows(marks, FailedMark(version, error.kind));
  }

  lemma OtherMarkAccounted(row: Row, after: Row, marks: seq<Mark>, mark: Mark)
    requires AttemptsAccounted(row, marks) && !mark.FailedMark?
    requires after.attemptCount == row.attemptCount && after.maxAttempts == row.maxAttempts && !after.status.DeadLetter?
    requires mark.PublishedMark? ==> !row.status.DeadLetter?
    ensures AttemptsAccounted(after, marks + [mark])
  {
    hide Failures, FailuresSinceReplay;
    HistoryGrows(marks, mark);
  }

  lemma NextAttempts(s: System, step: Step)
    requires Inv(s)
    ensures var t := Next(s, step); AttemptsAccounted(t.row, t.marks)
  {
    hide Failures, FailuresSinceReplay, Allowance, VersionsIncrease, VersionsBelow;
    match step
    case Publish(h, d, now) =>
      if h in s.held && HoldsLease(s.row, d, s.held[h].claimVersion, now) {
        OtherMarkAccounted(s.row, AsPublished(s.row, now), s.marks, PublishedMark(s.held[h].claimVersion));
      }
    case Fail(h, d, error, retryDelay, now) =>
      if h in s.held && HoldsLease(s.row, d, s.held[h].claimVersion, now) {
        FailureAccounted(s.row, error, retryDelay, now, s.marks, s.row.claimVersion);
      }
    case Replay =>
      if s.row.status.DeadLetter? {
        OtherMarkAccounted(s.row, AsReplayed(s.row), s.marks, ReplayMark);
      }
    case _ =>
  }

  lemma NextInv(s: System, step: Step)
    requires Inv(s)
    ensures Inv(Next(s, step))
  {
    NextVersions(s, step);
    NextSnapshots(s, step);
    NextPublished(s, step);
    NextAttempts(s, step);
  }

  lemma {:induction false} RunInv(s: System, steps: seq<Step>)
    requires Inv(s)
    ensures Inv(Run(s, steps))
    decreases |steps|
  {
    if steps != [] {
      NextInv(s, steps[0]);
      RunInv(Next(s, steps[0]), steps[1..]);
    }
  }

  lemma ReachableInv(maxAttempts: int, steps: seq<Step>)
    ensures Inv(Run(Init(maxAttempts), steps))
  {
    RunInv(Init(maxAttempts), steps);
  }

  // ----- the theorems -----

  /** A row is `publishing` exactly while `locked_by` and `locked_until` are set. */
  lemma PublishingMeansLocked(maxAttempts: int, steps: seq<Step>)
    ensures var row := Run(Init(maxAttempts), steps).row;
            && (row.status.Publishing? <==> row.lockedBy.Some?)
            && (row.status.Publishing? <==> row.lockedUntil.Some?)
  {
    ReachableInv(maxAttempts, steps);
  }

  lemma {:induction false} CompletionsBounded(marks: seq<Mark>, bound: nat)
    requires VersionsIncrease(marks) && VersionsBelow(marks, bound + 1)
    ensures Completions(marks) <= bound
    ensures Failures(marks) <= Completions(marks)
    decreases |marks|
  {
    if marks != [] {
      var last := marks[|marks| - 1];
      var front := marks[..|marks| - 1];
      if last.ReplayMark? {
        CompletionsBounded(front, bound);
      } else {
        CompletionsBounded(front, last.version - 1);
      }
    }
  }

  /** No claim completes twice: completed versions strictly increase, and their number never exceeds the claims. */
  lemma EachClaimCompletesAtMostOnce(maxAttempts: int, steps: seq<Step>)
    ensures var s := Run(Init(maxAttempts), steps);
            && (forall i, j | 0 <= i < j < |s.marks| ::
                  !s.marks[i].ReplayMark? && !s.marks[j].ReplayMark? ==> s.marks[i].version < s.marks[j].version)
            && Completions(s.marks) <= s.row.claimVersion
  {
    ReachableInv(maxAttempts, steps);
    var s := Run(Init(maxAttempts), steps);
    CompletionsBounded(s.marks, s.row.claimVersion);
  }

  /** A completion whose claim was superseded, already completed, expired or not the caller's changes nothing
      in the table; every other completion takes effect. */
  lemma CompletionTakesEffectIff(maxAttempts: int, steps: seq<Step>, step: Step)
    requires step.Publish? || step.Fail?
    requires var s := Run(Init(maxAttempts), steps); step.holder in s.held
    ensures var s := Run(Init(maxAttempts), steps);
            var t := Next(s, step);
            var live := && s.row.status.Publishing?
                        && s.held[step.holder] == s.row
                        && s.row.lockedBy == Some(step.dispatcherId)
                        && s.row.lockedUntil.Some?
                        && step.now < s.row.lockedUntil.value;
            && (live ==> t.row.status != s.row.status && |t.marks| == |s.marks| + 1)
            && (!live ==> t.row == s.row && t.marks == s.marks)
  {
    ReachableInv(maxAttempts, steps);
  }

  /** `published` is terminal: no later step, by anyone and at any clock reading, changes the row. */
  lemma {:induction false} PublishedIsTerminal(s: System, steps: seq<Step>)
    requires s.row.status.Published?
    ensures Run(s, steps).row == s.row && Run(s, steps).marks == s.marks
    decreases |steps|
  {
    if steps != [] {
      PublishedIsTerminal(Next(s, steps[0]), steps[1..]);
    }
  }

  /** A row under an unexpired lease cannot be claimed away; once the lease runs out it always can. */
  lemma LeaseExcludes(maxAttempts: int, steps: seq<Step>, now: int)
    ensures var row := Run(Init(maxAttempts), steps).row;
            row.status.Publishing? ==> row.lockedUntil.Some? && (Eligible(row, now) <==> row.lockedUntil.value <= now)
  {
    ReachableInv(maxAttempts, steps);
  }

  /** Whoever reads the row, or tries to complete it, then holds it as it is, whether the completion took effect or not,
      and nobody else's event object changes. */
  lemma CompletionRefreshes(s: System, step: Step, other: nat)
    requires ((step.Publish? || step.Fail?) && step.holder in s.held) || step.Read?
    ensures var t := Next(s, step);
            && step.holder in t.held && t.held[step.holder] == t.row
            && (other != step.holder ==> (other in t.held <==> other in s.held) && (other in s.held ==> t.held[other] == s.held[other]))
            && (step.Read? ==> t.row == s.row && t.marks == s.marks)
  {
  }

  /** A claim takes effect exactly on a pending or failed row with no retry time and no lock ahead, and on a publishing
      row whose lease is over; then the row is leased to the claimant, who holds it as it is. */
  lemma ClaimTakesEffectIff(s: System, h: nat, d: string, lockUntil: int, now: int)
    ensures var t := Next(s, Claim(h, d, lockUntil, now));
            && (t.row != s.row <==>
                  || (&& (s.row.status == Pending || s.row.status == Failed)
                      && (s.row.nextRetryAt == None || s.row.nextRetryAt.value <= now)
                      && (s.row.lockedUntil == None || s.row.lockedUntil.value <= now))
                  || (s.row.status == Publishing && s.row.lockedUntil != None && s.row.lockedUntil.value <= now))
            && (t.row != s.row ==>
                  && t.row == Row(Publishing, s.row.claimVersion + 1, s.row.attemptCount, s.row.maxAttempts, s.row.nextRetryAt,
                                  Some(d), Some(lockUntil), s.row.lastError, s.row.publishedAt, s.row.deadLetterReason)
                  && t.held == s.held[h := t.row])
            && (t.row == s.row ==> t == s)
  {
  }

  /** Nobody claims the row before `due`. */
  predicate NoClaimFrom(steps: seq<Step>, due: int) {
    forall i | 0 <= i < |steps| && steps[i].Claim? :: steps[i].now < due
  }

  lemma {:induction false} WaitsUntilDue(s: System, more: seq<Step>, due: int)
    requires s.row.status.Failed? && s.row.nextRetryAt == Some(due) && s.row.lockedUntil == None && NoClaimFrom(more, due)
    ensures Run(s, more).row == s.row
    decreases |more|
  {
    if more != [] {
      assert NoClaimFrom(more[1..], due) by {
        forall i | 0 <= i < |more[1..]| && more[1..][i].Claim?
          ensures more[1..][i].now < due
        {
          assert more[1..][i] == more[i + 1];
        }
      }
      assert more[0].Claim? ==> more[0].now < due;
      WaitsUntilDue(Next(s, more[0]), more[1..], due);
    }
  }

  /** A failed mark that leaves attempts puts the row back for a claim exactly from the retry time on: whatever else
      happens before, the first claim at or after now + delay takes it, and none before does. */
  lemma RetriedWhenDue(maxAttempts: int, steps: seq<Step>, fail: Step, more: seq<Step>, claim: Step)
    requires fail.Fail? && claim.Claim?
    requires var s := Run(Init(maxAttempts), steps); Next(s, fail).row.status == Failed && Next(s, fail).row != s.row
    requires NoClaimFrom(more, fail.now + fail.retryDelay)
    ensures var t := Run(Next(Run(Init(maxAttempts), steps), fail), more);
            Next(t, claim).row != t.row <==> claim.now >= fail.now + fail.retryDelay
  {
    ReachableInv(maxAttempts, steps);
    var s := Run(Init(maxAttempts), steps);
    WaitsUntilDue(Next(s, fail), more, fail.now + fail.retryDelay);
    var t := Run(Next(s, fail), more);
    ClaimTakesEffectIff(t, claim.holder, claim.dispatcherId, claim.lockUntil, claim.now);
  }

  /** A replayed dead letter can be claimed at once, whatever the clock reads. */
  lemma ReplayedIsDueAtOnce(s: System, claim: Step)
    requires s.row.status.DeadLetter? && claim.Claim?
    ensures Next(Next(s, Replay), claim).row.status.Publishing? && Next(Next(s, Replay), claim).row.lockedBy == Some(claim.dispatcherId)
  {
  }

  /** No failure is lost: `attempt_count` is the number of failed marks, because the claimant whose mark takes
      effect holds a snapshot that agrees with the row. */
  lemma NoFailureLost(maxAttempts: int, steps: seq<Step>)
    ensures var s := Run(Init(maxAttempts), steps);
            && s.row.attemptCount == Failures(s.marks)
            && (forall h | h in s.held && s.row.status.Publishing? && s.held[h].claimVersion == s.row.claimVersion ::
                  s.held[h].attemptCount == s.row.attemptCount)
  {
    ReachableInv(maxAttempts, steps);
  }

  predicate NoReplay(marks: seq<Mark>) {
    forall i | 0 <= i < |marks| :: !marks[i].ReplayMark?
  }

  lemma {:induction false} MaxAttemptsFixed(s: System, steps: seq<Step>)
    requires Inv(s)
    ensures Run(s, steps).row.maxAttempts == s.row.maxAttempts
    decreases |steps|
  {
    if steps != [] {
      NextInv(s, steps[0]);
      MaxAttemptsFixed(Next(s, steps[0]), steps[1..]);
    }
  }

  /** The row was just killed by a transient failure rather than by a permanent one. */
  predicate DiedOfTransient(s: System) {
    && s.row.status.DeadLetter?
    && s.marks != [] && s.marks[|s.marks| - 1].FailedMark? && s.marks[|s.marks| - 1].kind.Transient?
  }

  /** From a row with no failure since its last replay there is room for max(1, max_attempts - attempt_count)
      failed marks: in every continuation without a replay the row is alive while fewer have been made, and
      transient failures kill it exactly when the room is used up. */
  lemma RoomForFailures(s: System, more: seq<Step>, later: seq<Mark>)
    requires Inv(s) && FailuresSinceReplay(s.marks) == 0
    requires Run(s, more).marks == s.marks + later && NoReplay(later)
    ensures var t := Run(s, more);
            var room := Max(1, s.row.maxAttempts - s.row.attemptCount);
            var used := t.row.attemptCount - s.row.attemptCount;
            && 0 <= used <= room
            && (!t.row.status.DeadLetter? ==> used < room)
            && (DiedOfTransient(t) ==> used == room)
  {
    RunInv(s, more);
    MaxAttemptsFixed(s, more);
    SinceReplaySplits(s.marks, later);
  }

  /** Without replay, and with `max_attempts` at least one, `attempt_count` never exceeds `max_attempts` and
      transient failures reach `dead_letter` after exactly `max_attempts` failed marks. */
  lemma AttemptsNeverExceedMax(maxAttempts: int, steps: seq<Step>)
    requires maxAttempts >= 1
    requires NoReplay(Run(Init(maxAttempts), steps).marks)
    ensures var s := Run(Init(maxAttempts), steps);
            && s.row.attemptCount == Failures(s.marks) <= maxAttempts
            && (!s.row.status.DeadLetter? ==> Failures(s.marks) < maxAttempts)
            && (DiedOfTransient(s) ==> Failures(s.marks) == maxAttempts)
  {
    ReachableInv(maxAttempts, steps);
    RoomForFailures(Init(maxAttempts), steps, Run(Init(maxAttempts), steps).marks);
  }

  /** Each replay of a dead letter allows exactly max(1, max_attempts - attempt_count) more transient failures. */
  lemma ReplayAllowance(maxAttempts: int, steps: seq<Step>, more: seq<Step>, later: seq<Mark>)
    requires Run(Init(maxAttempts), steps).row.status.DeadLetter?
    requires var s := Next(Run(Init(maxAttempts), steps), Replay);
             Run(s, more).marks == s.marks + later && NoReplay(later)
    ensures var dead := Run(Init(maxAttempts), steps);
            var t := Run(Next(dead, Replay), more);
            var room := Max(1, maxAttempts - dead.row.attemptCount);
            var used := t.row.attemptCount - dead.row.attemptCount;
            && 0 <= used <= room
            && (!t.row.status.DeadLetter? ==> used < room)
            && (DiedOfTransient(t) ==> used == room)
  {
    var dead := Run(Init(maxAttempts), steps);
    ReachableInv(maxAttempts, steps);
    NextInv(dead, Replay);
    MaxAttemptsFixed(Init(maxAttempts), steps);
    HistoryGrows(dead.marks, ReplayMark);
    RoomForFailures(Next(dead, Replay), more, later);
  }

  lemma {:induction false} SinceReplaySplits(marks: seq<Mark>, later: seq<Mark>)
    requires NoReplay(later)
    ensures FailuresSinceReplay(marks + later) == FailuresSinceReplay(marks) + Failures(marks + later) - Failures(marks)
    ensures Failures(marks + later) >= Failures(marks)
    decreases |later|
  {
    if later == [] {
      assert marks + later == marks;
    } else {
      var front := later[..|later| - 1];
      SinceReplaySplits(marks, front);
      HistoryGrows(marks + front, later[|later| - 1]);
      assert marks + later == marks + front + [later[|later| - 1]];
    }
  }
}
