/** Replays of a dead letter that are read and written apart. A replay checks the status of the row that it read, and
    its write has no guard: of the columns that a replay assigns it sets those whose value differs from the one read, on
    whatever the row has become. */
module ReplayRaces {
  import opened Common
  import opened Outbox
  import OutboxRuns

  /** `reading` holds the processes that have read a dead letter and not yet written, with the row they read. */
  datatype System = System(outbox: OutboxRuns.System, reading: map<nat, Row>)

  datatype Step =
    | ReadDeadLetter(process: nat)
    | WriteReplay(process: nat)
    | Other(step: OutboxRuns.Step)

  function Start(maxAttempts: int): System {
    System(OutboxRuns.Init(maxAttempts), map[])
  }

  /** The row after the write of a replay that read `read`. */
  function Replayed(current: Row, read: Row): Row {
    var target := AsReplayed(read);
    current.(status := Sent(current.status, read.status, target.status),
             deadLetterReason := Sent(current.deadLetterReason, read.deadLetterReason, target.deadLetterReason),
             lastError := Sent(current.lastError, read.lastError, target.lastError),
             nextRetryAt := Sent(current.nextRetryAt, read.nextRetryAt, target.nextRetryAt),
             lockedBy := Sent(current.lockedBy, read.lockedBy, target.lockedBy),
             lockedUntil := Sent(current.lockedUntil, read.lockedUntil, target.lockedUntil))
  }

  /** A replay writes the columns that it read as something else than it sets them to: it puts the row back to pending
      and clears those errors, times and leases that the dead letter had. Whatever else the row holds by now stays. */
  lemma ReplayWrites(current: Row, read: Row)
    requires read.status == DeadLetter
    ensures var r := Replayed(current, read);
            && r.status == Pending
            && r.deadLetterReason == (if read.deadLetterReason.Some? then None else current.deadLetterReason)
            && r.lastError == (if read.lastError.Some? then None else current.lastError)
            && r.nextRetryAt == (if read.nextRetryAt.Some? then None else current.nextRetryAt)
            && r.lockedBy == (if read.lockedBy.Some? then None else current.lockedBy)
            && r.lockedUntil == (if read.lockedUntil.Some? then None else current.lockedUntil)
            && r.claimVersion == current.claimVersion && r.attemptCount == current.attemptCount
            && r.maxAttempts == current.maxAttempts && r.publishedAt == current.publishedAt
  {
  }

  function Next(s: System, step: Step): System {
    match step
    case ReadDeadLetter(p) =>
      if s.outbox.row.status.DeadLetter? then s.(reading := s.reading[p := s.outbox.row]) else s
    case WriteReplay(p) =>
      if p in s.reading then
        System(OutboxRuns.System(Replayed(s.outbox.row, s.reading[p]), s.outbox.held, s.outbox.marks + [OutboxRuns.ReplayMark]),
               s.reading - {p})
      else s
    case Other(inner) => s.(outbox := OutboxRuns.Next(s.outbox, inner))
  }

  function Run(s: System, steps: seq<Step>): System
    decreases |steps|
  {
    if steps == [] then s else Run(Next(s, steps[0]), steps[1..])
  }

  /** At most k replays are between their read and their write at any time. */
  predicate AtMostInFlight(s: System, steps: seq<Step>, k: nat)
    decreases |steps|
  {
    && |s.reading| <= k
    && (steps != [] ==> !(steps[0].Other? && steps[0].step.Replay?) && AtMostInFlight(Next(s, steps[0]), steps[1..], k))
  }

  /** No step of the run changes a published row. */
  predicate PublishedStays(s: System, steps: seq<Step>)
    decreases |steps|
  {
    steps == [] ||
    ((s.outbox.row.status.Published? ==> Next(s, steps[0]).outbox.row == s.outbox.row) && PublishedStays(Next(s, steps[0]), steps[1..]))
  }

  // ----- one replay at a time -----

  predicate ReadersSeeDeadLetter(s: System) {
    forall p | p in s.reading :: s.reading[p] == s.outbox.row && s.outbox.row.status.DeadLetter?
  }

  /** A dead letter is left alone by everything but a replay. */
  lemma DeadLetterWaits(s: OutboxRuns.System, step: OutboxRuns.Step)
    requires s.row.status.DeadLetter? && !step.Replay?
    ensures OutboxRuns.Next(s, step).row == s.row
  {
  }

  lemma AtMostOneIsNone(a: map<nat, Row>, p: nat)
    requires |a| <= 1 && p in a
    ensures a - {p} == map[]
  {
    var rest := a.Keys - {p};
    assert |rest| == |a.Keys| - 1 && |a.Keys| == |a|;
    assert (a - {p}).Keys == rest;
  }

  lemma NextReaders(s: System, step: Step)
    requires ReadersSeeDeadLetter(s) && |s.reading| <= 1 && !(step.Other? && step.step.Replay?)
    ensures ReadersSeeDeadLetter(Next(s, step))
    ensures s.outbox.row.status.Published? ==> Next(s, step).outbox.row == s.outbox.row
  {
    match step
    case ReadDeadLetter(p) =>
    case WriteReplay(p) =>
      if p in s.reading {
        AtMostOneIsNone(s.reading, p);
      }
    case Other(inner) =>
      if s.outbox.row.status.DeadLetter? {
        DeadLetterWaits(s.outbox, inner);
      }
      if s.outbox.row.status.Published? {
        OutboxRuns.PublishedIsTerminal(s.outbox, [inner]);
        assert OutboxRuns.Run(s.outbox, [inner]) == OutboxRuns.Run(OutboxRuns.Next(s.outbox, inner), []);
      }
  }

  lemma {:induction false} SerialReplaysKeepPublished(s: System, steps: seq<Step>)
    requires ReadersSeeDeadLetter(s) && AtMostInFlight(s, steps, 1)
    ensures PublishedStays(s, steps)
    decreases |steps|
  {
    hide Next, ReadersSeeDeadLetter;
    if steps != [] {
      NextReaders(s, steps[0]);
      SerialReplaysKeepPublished(Next(s, steps[0]), steps[1..]);
    }
  }

  /** The run of the outbox in which each replay happens when it is written. */
  function AtTheirWrites(s: System, steps: seq<Step>): seq<OutboxRuns.Step>
    decreases |steps|
  {
    if steps == [] then []
    else
      (match steps[0]
       case ReadDeadLetter(_) => []
       case WriteReplay(p) => if p in s.reading then [OutboxRuns.Replay] else []
       case Other(inner) => [inner])
      + AtTheirWrites(Next(s, steps[0]), steps[1..])
  }

  /** With one replay at a time, reading and writing apart makes no difference: the outbox runs as with atomic replays,
      and everything that holds of those runs holds. */
  lemma {:induction false} SerialReplaysAreAtomic(s: System, steps: seq<Step>)
    requires ReadersSeeDeadLetter(s) && AtMostInFlight(s, steps, 1)
    ensures Run(s, steps).outbox == OutboxRuns.Run(s.outbox, AtTheirWrites(s, steps))
    decreases |steps|
  {
    hide ReadersSeeDeadLetter;
    if steps != [] {
      NextReaders(s, steps[0]);
      SerialReplaysAreAtomic(Next(s, steps[0]), steps[1..]);
      var later := AtTheirWrites(Next(s, steps[0]), steps[1..]);
      if steps[0].Other? || (steps[0].WriteReplay? && steps[0].process in s.reading) {
        WriteIsReplay(s, steps[0]);
        var first := if steps[0].Other? then steps[0].step else OutboxRuns.Replay;
        assert AtTheirWrites(s, steps) == [first] + later;
        assert ([first] + later)[1..] == later;
      } else {
        assert AtTheirWrites(s, steps) == later;
      }
    }
  }

  lemma WriteIsReplay(s: System, step: Step)
    requires ReadersSeeDeadLetter(s)
    ensures step.WriteReplay? && step.process in s.reading ==> Next(s, step).outbox == OutboxRuns.Next(s.outbox, OutboxRuns.Replay)
  {
  }

  // ----- two replays at a time -----

  /** Both read the dead letter; one writes; the row is claimed and published; the other writes. */
  function TwoReplays(error: HandlerError): seq<Step> {
    [Other(OutboxRuns.Claim(0, "d", 1, 0)), Other(OutboxRuns.Fail(0, "d", error, 0, 0)), ReadDeadLetter(1), ReadDeadLetter(2),
     WriteReplay(1), Other(OutboxRuns.Claim(0, "d", 1, 0)), Other(OutboxRuns.Publish(0, "d", 0)), WriteReplay(2)]
  }

  /** Up to the second read: the row is dead and two replays are in flight. */
  lemma TwoReadTheDeadLetter(maxAttempts: int, error: HandlerError) returns (t: seq<System>)
    requires error.kind.Permanent?
    ensures |t| == 5 && t[0] == Start(maxAttempts) && forall i | 0 <= i < 4 :: t[i + 1] == Next(t[i], TwoReplays(error)[i])
    ensures t[4].reading == map[1 := t[4].outbox.row, 2 := t[4].outbox.row]
    ensures forall i | 0 <= i < 5 :: |t[i].reading| <= 2
    ensures forall i | 0 <= i < 5 :: !t[i].outbox.row.status.Published?
    ensures t[4].outbox.row.status.DeadLetter? && t[4].outbox.row.lockedBy == None
  {
    var steps := TwoReplays(error);
    var s0 := Start(maxAttempts);
    var s1 := Next(s0, steps[0]);
    assert s1.outbox.row.status.Publishing? && 0 in s1.outbox.held;
    var s2 := Next(s1, steps[1]);
    assert s2.outbox.row.status.DeadLetter?;
    var s3 := Next(s2, steps[2]);
    var s4 := Next(s3, steps[3]);
    t := [s0, s1, s2, s3, s4];
  }

  /** From there: replayed, claimed, published, and replayed again. */
  lemma OneWritesTooLate(s: System, error: HandlerError) returns (t: seq<System>)
    requires s.reading == map[1 := s.outbox.row, 2 := s.outbox.row] && s.outbox.row.status.DeadLetter? && s.outbox.row.lockedBy == None
    ensures |t| == 5 && t[0] == s && forall i | 0 <= i < 4 :: t[i + 1] == Next(t[i], TwoReplays(error)[i + 4])
    ensures forall i | 0 <= i < 5 :: |t[i].reading| <= 2
    ensures t[3].outbox.row.status.Published? && t[4].outbox.row.status.Pending?
  {
    var steps := TwoReplays(error);
    var s5 := Next(s, steps[4]);
    assert s5.outbox.row == AsReplayed(s.outbox.row) && s5.outbox.row.status.Pending?;
    assert s5.reading == map[2 := s.outbox.row];
    var s6 := Next(s5, steps[5]);
    assert s6.outbox.row.status.Publishing? && 0 in s6.outbox.held && s6.outbox.held[0] == s6.outbox.row;
    var s7 := Next(s6, steps[6]);
    assert s7.outbox.row.status.Published?;
    var s8 := Next(s7, steps[7]);
    assert s8.reading == map[];
    t := [s, s5, s6, s7, s8];
  }

  lemma LateWriteUnpublishes(s: System, error: HandlerError)
    requires s.reading == map[1 := s.outbox.row, 2 := s.outbox.row] && s.outbox.row.status.DeadLetter? && s.outbox.row.lockedBy == None
    ensures AtMostInFlight(s, TwoReplays(error)[4..], 2) && !PublishedStays(s, TwoReplays(error)[4..])
  {
    hide Next, OutboxRuns.Next;
    var steps := TwoReplays(error);
    var t := OneWritesTooLate(s, error);
    Unroll(t[3], t[4], steps, 7);
    Unroll(t[2], t[3], steps, 6);
    Unroll(t[1], t[2], steps, 5);
    Unroll(t[0], t[1], steps, 4);
    assert steps[8..] == [];
  }

  /** The second write puts a published row back to pending, so that it will be dispatched again. */
  lemma SecondReplayUnpublishes(maxAttempts: int, error: HandlerError)
    requires error.kind.Permanent?
    ensures AtMostInFlight(Start(maxAttempts), TwoReplays(error), 2)
    ensures !PublishedStays(Start(maxAttempts), TwoReplays(error))
  {
    hide Next, OutboxRuns.Next, OutboxRuns.Init;
    var steps := TwoReplays(error);
    var t := TwoReadTheDeadLetter(maxAttempts, error);
    LateWriteUnpublishes(t[4], error);
    Unroll(t[3], t[4], steps, 3);
    Unroll(t[2], t[3], steps, 2);
    Unroll(t[1], t[2], steps, 1);
    Unroll(t[0], t[1], steps, 0);
    assert steps[0..] == steps;
  }

  lemma Unroll(s: System, t: System, steps: seq<Step>, n: nat)
    requires n < |steps| && t == Next(s, steps[n])
    ensures PublishedStays(s, steps[n..]) <==>
            (s.outbox.row.status.Published? ==> t.outbox.row == s.outbox.row) && PublishedStays(t, steps[n + 1..])
    ensures AtMostInFlight(s, steps[n..], 2) <==>
            |s.reading| <= 2 && !(steps[n].Other? && steps[n].step.Replay?) && AtMostInFlight(t, steps[n + 1..], 2)
  {
    hide Next;
    assert steps[n..][0] == steps[n] && steps[n..][1..] == steps[n + 1..];
  }

  /** More replays may be in flight than there are. */
  lemma {:induction false} InFlightMonotone(s: System, steps: seq<Step>, k: nat, more: nat)
    requires k <= more && AtMostInFlight(s, steps, k)
    ensures AtMostInFlight(s, steps, more)
    decreases |steps|
  {
    hide Next;
    if steps != [] {
      InFlightMonotone(Next(s, steps[0]), steps[1..], k, more);
    }
  }

  /** In every run with at most k replays in flight at a time, a published row stays as it is. */
  ghost predicate PublishedIsFinal(k: nat) {
    forall maxAttempts: int, steps: seq<Step> | AtMostInFlight(Start(maxAttempts), steps, k) ::
      PublishedStays(Start(maxAttempts), steps)
  }

  /** `published` is terminal exactly when replays of one row do not overlap. */
  lemma PublishedIsFinalIff(k: nat)
    ensures PublishedIsFinal(k) <==> k <= 1
  {
    if k <= 1 {
      forall maxAttempts: int, steps: seq<Step> | AtMostInFlight(Start(maxAttempts), steps, k)
        ensures PublishedStays(Start(maxAttempts), steps)
      {
        InFlightMonotone(Start(maxAttempts), steps, k, 1);
        SerialReplaysKeepPublished(Start(maxAttempts), steps);
      }
    } else {
      var error := HandlerError(Permanent, "");
      SecondReplayUnpublishes(3, error);
      InFlightMonotone(Start(3), TwoReplays(error), 2, k);
    }
  }
}
