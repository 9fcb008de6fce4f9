/** Dispatch attempts on one event with each handler's claim read and written apart: an attempt reads the handler's
    record, decides on what it read and, when it starts over, writes without a guard. */
module EventRaces {
  import opened Common
  import opened Idempotency
  import ClaimRaces
  import Events
  import EventRuns
  import Outbox

  /** `reading` maps an attempt between its read and its decision to what it read of the record it is at. */
  datatype System = System(world: EventRuns.World, reading: map<nat, Reading>)

  datatype Reading = Reading(snapshot: Record, now: int)

  datatype Step =
    | InsertOrRead(holder: nat, now: int)
    | Decide(holder: nat, now: int)
    | Other(step: EventRuns.Step)

  function Start(maxAttempts: int, claimable: bool, hashes: seq<string>, clock: int): System {
    System(EventRuns.Init(maxAttempts, claimable, hashes, clock), map[])
  }

  function Verdict(r: Reading, hash: string): Result<Outcome> {
    Claim(Some(r.snapshot), hash, Events.CLAIM_TTL, Events.CLAIM_LOCK, r.now, true).1
  }

  /** The record of a claim that starts over. */
  function Restarted(current: Option<Record>, r: Reading, hash: string): Option<Record> {
    if current.None? then None
    else Some(ClaimRaces.Flushed(current.value, r.snapshot, Processed(hash, Events.CLAIM_TTL, Events.CLAIM_LOCK, r.now)))
  }

  /** What the attempt does about its claim: it calls the handler, goes on to the next one, or is aborted. */
  function Decided(w: EventRuns.World, h: nat, r: Reading, now: int): EventRuns.World
    requires EventRuns.WellFormed(w) && h in w.attempts && w.attempts[h].passed < |w.hashes|
  {
    var a := w.attempts[h];
    var i := a.passed;
    var verdict := Verdict(r, w.hashes[i]);
    if verdict.Err? then w.(attempts := w.attempts[h := a.(phase := EventRuns.Aborted)], clock := now)
    else if verdict.value.Replayed? then w.(attempts := w.attempts[h := EventRuns.Advance(a, |w.hashes|)], clock := now)
    else
      w.(records := w.records[i := Restarted(w.records[i], r, w.hashes[i])],
         attempts := w.attempts[h := a.(phase := EventRuns.Calling(r.now + Events.CLAIM_LOCK), called := a.called + [i])],
         clock := now)
  }

  /** An absent record is inserted at once, and without a claimable scope the claim raises before it reads. */
  predicate Reads(w: EventRuns.World, h: nat)
    requires EventRuns.WellFormed(w)
  {
    h in w.attempts && w.attempts[h].phase.Ready? && w.claimable && w.records[w.attempts[h].passed].Some?
  }

  function Next(s: System, step: Step): System
    requires EventRuns.WellFormed(s.world)
  {
    match step
    case InsertOrRead(h, now) =>
      if Reads(s.world, h) then
        System(s.world.(clock := now), s.reading[h := Reading(s.world.records[s.world.attempts[h].passed].value, now)])
      else s.(world := EventRuns.Next(s.world, EventRuns.StartHandler(h, now)))
    case Decide(h, now) =>
      if h in s.reading && h in s.world.attempts && s.world.attempts[h].phase.Ready?
      then System(Decided(s.world, h, s.reading[h], now), s.reading - {h})
      else System(s.world.(clock := now), s.reading - {h})
    case Other(inner) =>
      System(EventRuns.Next(s.world, inner), if inner.Crash? then s.reading - {inner.holder} else s.reading)
  }

  function Clock(step: Step): int {
    match step
    case InsertOrRead(_, now) => now
    case Decide(_, now) => now
    case Other(inner) => inner.now
  }

  /** Every step moves the clock to its own reading. */
  lemma ClockFollows(s: System, step: Step)
    requires EventRuns.WellFormed(s.world)
    ensures Next(s, step).world.clock == Clock(step)
  {
  }

  /** The attempts whose claim of handler i is between its read and its decision. */
  function Pending(s: System, i: nat): set<nat> {
    set h | h in s.reading && h in s.world.attempts && s.world.attempts[h].passed == i
  }

  predicate InFlight(s: System, k: nat) {
    forall i | 0 <= i < |s.world.hashes| :: |Pending(s, i)| <= k
  }

  /** As for whole claims the clock does not go back, calls end inside their locks and all happens inside the records'
      lifetimes. Besides, an attempt has one claim under way, and at most k claims of one handler are under way. */
  predicate Legal(s: System, step: Step, k: nat) {
    && InFlight(s, k)
    && EventRuns.Timely(s.world, Clock(step))
    && (step.InsertOrRead? ==> step.holder !in s.reading)
    && (step.Other? ==> !step.step.StartHandler?)
  }

  predicate LegalRun(s: System, steps: seq<Step>, k: nat)
    decreases |steps|
  {
    if steps == [] then InFlight(s, k)
    else
      Legal(s, steps[0], k) && EventRuns.WellFormed(Next(s, steps[0]).world) && LegalRun(Next(s, steps[0]), steps[1..], k)
  }

  function Run(s: System, steps: seq<Step>, k: nat): System
    requires LegalRun(s, steps, k)
    decreases |steps|
  {
    if steps == [] then s else Run(Next(s, steps[0]), steps[1..], k)
  }

  /** Read and decided at one clock reading, a claim is the claim of the attempt. */
  lemma ReadThenDecideIsStart(s: System, h: nat, now: int)
    requires EventRuns.WellFormed(s.world) && h !in s.reading
    ensures var t := Next(s, InsertOrRead(h, now));
            var u := if h in t.reading then Next(t, Decide(h, now)) else t;
            u == s.(world := EventRuns.Next(s.world, EventRuns.StartHandler(h, now)))
  {
    hide ClaimRaces.Flushed;
    var t := Next(s, InsertOrRead(h, now));
    if Reads(s.world, h) {
      var w := s.world;
      var i := w.attempts[h].passed;
      var record := w.records[i].value;
      ClaimRaces.FlushedIsTarget(record, Processed(w.hashes[i], Events.CLAIM_TTL, Events.CLAIM_LOCK, now));
      assert t.reading - {h} == s.reading;
      var (claimed, outcome) := Claim(w.records[i], w.hashes[i], Events.CLAIM_TTL, Events.CLAIM_LOCK, now, true);
      assert Verdict(t.reading[h], w.hashes[i]) == outcome;
      assert outcome.Err? || outcome.value.Replayed? ==> w.records[i := claimed] == w.records;
    }
  }

  // ----- one claim at a time -----

  predicate NoneCalls(w: EventRuns.World, i: nat) {
    forall g | g in w.attempts && w.attempts[g].phase.Calling? :: w.attempts[g].passed != i
  }

  /** A claim under way is of the handler that its attempt is at. If it may start over, the record is what it read and
      nobody is calling the handler; if it read a success, the success stands. */
  predicate PendingOk(w: EventRuns.World, h: nat, r: Reading)
    requires EventRuns.WellFormed(w)
  {
    && h in w.attempts && w.attempts[h].phase.Ready?
    && var i := w.attempts[h].passed;
       && w.records[i].Some? && r.now < r.snapshot.expiresAt
       && (Verdict(r, w.hashes[i]) == Ok(Started) ==> w.records[i] == Some(r.snapshot) && NoneCalls(w, i))
       && (r.snapshot.status.Succeeded? ==> EventRuns.Done(w.records, i))
  }

  predicate Inv(s: System) {
    && EventRuns.Inv(s.world)
    && forall h | h in s.reading :: PendingOk(s.world, h, s.reading[h])
  }

  lemma ClockInv(w: EventRuns.World, now: int)
    requires EventRuns.Inv(w)
    ensures EventRuns.Inv(w.(clock := now))
  {
    EventRuns.FewerAttemptsInv(w, w.(clock := now));
  }

  /** A record that a claim may start over on is nobody's who is calling. */
  lemma ReadIsPending(s: System, h: nat, now: int)
    requires Inv(s) && Reads(s.world, h) && EventRuns.Timely(s.world, now)
    ensures PendingOk(s.world, h, Reading(s.world.records[s.world.attempts[h].passed].value, now))
  {
    hide EventRuns.RecordsSound, EventRuns.CallersApart, EventRuns.PublishedMeansDone, EventRuns.CallsOrdered;
    var w := s.world;
    var i := w.attempts[h].passed;
    forall g | g in w.attempts && w.attempts[g].phase.Calling? && w.attempts[g].passed == i
      ensures Verdict(Reading(w.records[i].value, now), w.hashes[i]) != Ok(Started)
    {
      EventRuns.InvAt(w, g);
    }
  }

  /** A claim stays as it is while its attempt, its handler's callers and its record do, or a success of the record. */
  lemma StaysPending(w: EventRuns.World, t: EventRuns.World, h: nat, r: Reading)
    requires EventRuns.WellFormed(w) && EventRuns.WellFormed(t) && PendingOk(w, h, r)
    requires t.hashes == w.hashes && h in t.attempts && t.attempts[h] == w.attempts[h]
    requires var i := w.attempts[h].passed;
             && t.records[i] == w.records[i]
             && (NoneCalls(w, i) ==> NoneCalls(t, i))
    ensures PendingOk(t, h, r)
  {
  }

  lemma ReadKeepsInv(s: System, h: nat, now: int, k: nat)
    requires Inv(s) && Legal(s, InsertOrRead(h, now), k)
    ensures EventRuns.WellFormed(Next(s, InsertOrRead(h, now)).world) && Inv(Next(s, InsertOrRead(h, now)))
  {
    var t := Next(s, InsertOrRead(h, now));
    if Reads(s.world, h) {
      ClockInv(s.world, now);
      ReadIsPending(s, h, now);
      hide EventRuns.Inv, Verdict;
    } else {
      EventRuns.NextInv(s.world, EventRuns.StartHandler(h, now));
      InsertTouches(s.world, h, now);
      hide EventRuns.Inv, EventRuns.Next, Verdict;
      forall g | g in s.reading
        ensures PendingOk(t.world, g, s.reading[g])
      {
        assert PendingOk(s.world, g, s.reading[g]);
        StaysPending(s.world, t.world, g, s.reading[g]);
      }
    }
  }

  /** A start that finds no record touches only its own attempt and that record. */
  lemma InsertTouches(w: EventRuns.World, h: nat, now: int)
    requires EventRuns.WellFormed(w) && !Reads(w, h)
    ensures var t := EventRuns.Next(w, EventRuns.StartHandler(h, now));
            && EventRuns.WellFormed(t) && t.hashes == w.hashes
            && (forall g | g in w.attempts && g != h :: g in t.attempts && t.attempts[g] == w.attempts[g])
            && (forall i | 0 <= i < |w.records| && w.records[i].Some? :: t.records[i] == w.records[i])
            && (forall i | 0 <= i < |w.records| && w.records[i].Some? && NoneCalls(w, i) :: NoneCalls(t, i))
  {
  }

  /** A decision is a step of the attempt that touches only the record of the handler it is at. */
  lemma DecideIsLocal(s: System, h: nat, now: int)
    requires Inv(s) && h in s.reading
    ensures var t := Decided(s.world, h, s.reading[h], now);
            var i := s.world.attempts[h].passed;
            && EventRuns.WellFormed(t)
            && EventRuns.LocalStep(s.world, t, h, i, t.records[i], s.world.returned[i], t.attempts[h])
            && (Verdict(s.reading[h], s.world.hashes[i]) != Ok(Started) ==> t.records == s.world.records)
  {
    hide EventRuns.RecordsSound, EventRuns.AttemptsSound, EventRuns.CallersApart, EventRuns.PublishedMeansDone, ClaimRaces.Flushed;
    var w := s.world;
    var r := s.reading[h];
    var a := w.attempts[h];
    var i := a.passed;
    assert PendingOk(w, h, r);
    EventRuns.InvAt(w, h);
    Events.IncreasingAppend(a.called, i);
    ClaimRaces.FlushedIsTarget(r.snapshot, Processed(w.hashes[i], Events.CLAIM_TTL, Events.CLAIM_LOCK, r.now));
  }

  /** With one claim of a handler under way, a decision leaves all other claims as they are. */
  lemma OthersArePendingElsewhere(s: System, g: nat, h: nat)
    requires Inv(s) && InFlight(s, 1) && g in s.reading && h in s.reading && g != h
    ensures s.world.attempts[g].passed != s.world.attempts[h].passed
  {
    hide Verdict;
    assert PendingOk(s.world, g, s.reading[g]) && PendingOk(s.world, h, s.reading[h]);
    hide EventRuns.Inv;
    var i := s.world.attempts[g].passed;
    var both := Pending(s, i);
    assert g in both;
    if h in both {
      TwoMembers(both, g, h);
    }
  }

  lemma TwoMembers(a: set<nat>, g: nat, h: nat)
    requires g in a && h in a && g != h
    ensures |a| >= 2
  {
    assert h in a - {g} && |a - {g}| == |a| - 1;
  }

  lemma DecideKeepsInv(s: System, h: nat, now: int)
    requires Inv(s) && Legal(s, Decide(h, now), 1)
    ensures EventRuns.WellFormed(Next(s, Decide(h, now)).world) && Inv(Next(s, Decide(h, now)))
  {
    var t := Next(s, Decide(h, now));
    if h in s.reading {
      var i := s.world.attempts[h].passed;
      assert PendingOk(s.world, h, s.reading[h]);
      DecideIsLocal(s, h, now);
      EventRuns.LocalInv(s.world, t.world, h, i, t.world.records[i], s.world.returned[i], t.world.attempts[h]);
      forall g | g in t.reading
        ensures PendingOk(t.world, g, t.reading[g])
      {
        assert PendingOk(s.world, g, s.reading[g]);
        OthersArePendingElsewhere(s, g, h);
        hide EventRuns.Inv, Verdict, Decided, EventRuns.LocalStep;
        OthersStayPending(s.world, t.world, g, s.reading[g], h, t.world.attempts[h]);
      }
      hide EventRuns.Inv, Verdict, Decided, EventRuns.LocalStep, PendingOk;
    } else {
      ClockInv(s.world, now);
      hide EventRuns.Inv, Verdict;
    }
  }

  lemma OthersStayPending(w: EventRuns.World, t: EventRuns.World, g: nat, r: Reading, h: nat, b: EventRuns.Attempt)
    requires EventRuns.WellFormed(w) && EventRuns.WellFormed(t) && PendingOk(w, g, r) && g != h && h in w.attempts
    requires w.attempts[g].passed != w.attempts[h].passed && t.hashes == w.hashes
    requires t.attempts == w.attempts[h := b] && (b.phase.Calling? ==> b.passed == w.attempts[h].passed)
    requires t.records[w.attempts[g].passed] == w.records[w.attempts[g].passed]
    ensures PendingOk(t, g, r)
  {
    hide Verdict;
    StaysPending(w, t, g, r);
  }

  /** What a step that is no claim does to a handler that a claim is under way for: nothing, unless somebody is calling
      the handler; and it takes no waiting attempt away but by a crash. */
  lemma OtherTouches(w: EventRuns.World, inner: EventRuns.Step, h: nat)
    requires EventRuns.Inv(w) && EventRuns.Legal(w, inner) && !inner.StartHandler? && !(inner.Crash? && inner.holder == h)
    requires h in w.attempts && w.attempts[h].phase.Ready?
    ensures Untouched(w, EventRuns.Next(w, inner), h)
  {
    hide EventRuns.RecordsSound, EventRuns.AttemptsSound, EventRuns.CallersApart, EventRuns.PublishedMeansDone, EventRuns.SweptAll,
         EventRuns.HandlerStarted;
    match inner
    case Sweep(_) => EventRuns.SweepFindsNothing(w, inner);
    case HandlerReturns(g, _, _, _) => CallerTouches(w, inner, h);
    case HandlerRaises(g, _, _, _) => CallerTouches(w, inner, h);
    case _ => hide EventRuns.HandlerReturned, EventRuns.HandlerRaised;
  }

  predicate Untouched(w: EventRuns.World, t: EventRuns.World, h: nat)
    requires EventRuns.WellFormed(w) && h in w.attempts && w.attempts[h].phase.Ready?
  {
    var i := w.attempts[h].passed;
    && EventRuns.WellFormed(t) && t.hashes == w.hashes
    && h in t.attempts && t.attempts[h] == w.attempts[h]
    && (NoneCalls(w, i) || EventRuns.Done(w.records, i) ==> t.records[i] == w.records[i])
    && (NoneCalls(w, i) ==> NoneCalls(t, i))
    && (w.records[i].Some? ==> t.records[i].Some?)
  }

  lemma CallerTouches(w: EventRuns.World, inner: EventRuns.Step, h: nat)
    requires EventRuns.Inv(w) && (inner.HandlerReturns? || inner.HandlerRaises?)
    requires h in w.attempts && w.attempts[h].phase.Ready?
    ensures Untouched(w, EventRuns.Next(w, inner), h)
  {
    hide EventRuns.RecordsSound, EventRuns.AttemptsSound, EventRuns.CallersApart, EventRuns.PublishedMeansDone, EventRuns.Begun,
         EventRuns.HandlerStarted, EventRuns.CallsOrdered, EventRuns.RecordSound, EventRuns.SweptAll;
    if inner.holder in w.attempts {
      EventRuns.InvAt(w, inner.holder);
      var g := inner.holder;
      var j := w.attempts[g].passed;
      if w.attempts[g].phase.Calling? {
        assert !EventRuns.Done(w.records, j) && !NoneCalls(w, j);
        assert j != w.attempts[h].passed || !(NoneCalls(w, w.attempts[h].passed) || EventRuns.Done(w.records, w.attempts[h].passed));
      }
    }
  }

  lemma OtherKeepsInv(s: System, inner: EventRuns.Step, k: nat)
    requires Inv(s) && Legal(s, Other(inner), k)
    ensures EventRuns.WellFormed(Next(s, Other(inner)).world) && Inv(Next(s, Other(inner)))
  {
    EventRuns.NextInv(s.world, inner);
    var t := Next(s, Other(inner));
    forall g | g in t.reading
      ensures PendingOk(t.world, g, t.reading[g])
    {
      assert PendingOk(s.world, g, s.reading[g]);
      OtherTouches(s.world, inner, g);
      hide EventRuns.Inv, EventRuns.Next, Verdict;
    }
    hide EventRuns.Inv, EventRuns.Next, Verdict;
  }

  lemma NextInv(s: System, step: Step)
    requires Inv(s) && Legal(s, step, 1)
    ensures EventRuns.WellFormed(Next(s, step).world) && Inv(Next(s, step))
  {
    hide Inv, Next;
    match step
    case InsertOrRead(h, now) => ReadKeepsInv(s, h, now, 1);
    case Decide(h, now) => DecideKeepsInv(s, h, now);
    case Other(inner) => OtherKeepsInv(s, inner, 1);
  }

  lemma {:induction false} RunInv(s: System, steps: seq<Step>)
    requires Inv(s) && LegalRun(s, steps, 1)
    ensures Inv(Run(s, steps, 1))
    decreases |steps|
  {
    hide Inv, Next;
    if steps != [] {
      NextInv(s, steps[0]);
      RunInv(Next(s, steps[0]), steps[1..]);
    }
  }

  // ----- the exact condition -----

  /** Every handler of the event has returned at most once, and exactly once when the event is published. */
  predicate Once(w: EventRuns.World) {
    && (forall i | 0 <= i < |w.returned| :: w.returned[i] <= 1)
    && (w.outbox.row.status.Published? ==> w.hashes != [] && forall i | 0 <= i < |w.returned| :: w.returned[i] == 1)
  }

  lemma InvMeansOnce(w: EventRuns.World)
    requires EventRuns.Inv(w)
    ensures Once(w)
  {
    forall i | 0 <= i < |w.returned|
      ensures w.returned[i] <= 1 && (w.outbox.row.status.Published? ==> w.returned[i] == 1)
    {
      assert EventRuns.RecordSound(w.records[i], w.hashes[i], w.returned[i]);
      assert w.outbox.row.status.Published? ==> EventRuns.Done(w.records, i);
    }
  }

  /** Over all attempts of any dispatchers on one event, with at most k claims of a handler under way at a time. */
  ghost predicate AlwaysOnce(k: nat) {
    forall maxAttempts: int, claimable: bool, hashes: seq<string>, clock: int, steps: seq<Step>
      | LegalRun(Start(maxAttempts, claimable, hashes, clock), steps, k) ::
      Once(Run(Start(maxAttempts, claimable, hashes, clock), steps, k).world)
  }

  // ----- two claims at a time -----

  /** The first attempt calls the handler, which raises; two later ones claim the event, each when the lease before it is
      over. */
  function Fails(): (steps: seq<Step>)
    ensures |steps| == 5
  {
    [Other(EventRuns.ClaimEvent(1, "d", 1, 0)), InsertOrRead(1, 0), Other(EventRuns.HandlerRaises(1, "E", "", 0)),
     Other(EventRuns.ClaimEvent(2, "d", 2, 1)), Other(EventRuns.ClaimEvent(3, "d", 3, 2))]
  }

  /** Both read the failed record before either decides. */
  function Claims(): (steps: seq<Step>)
    ensures |steps| == 4
  {
    [InsertOrRead(2, 2), InsertOrRead(3, 2), Decide(2, 2), Decide(3, 2)]
  }

  /** The handler returns to both, and the last one publishes the event. */
  function Returns(): (steps: seq<Step>)
    ensures |steps| == 3
  {
    [Other(EventRuns.HandlerReturns(2, "", "", 2)), Other(EventRuns.HandlerReturns(3, "", "", 2)),
     Other(EventRuns.MarkPublished(3, "d", 2))]
  }

  function TwoRetries(): seq<Step> {
    Fails() + Claims() + Returns()
  }

  /** The states lead through the steps. */
  predicate Through(states: seq<System>, steps: seq<Step>, k: nat) {
    && |states| == |steps| + 1
    && (forall i | 0 <= i < |states| :: EventRuns.WellFormed(states[i].world))
    && (forall i | 0 <= i < |steps| :: Legal(states[i], steps[i], k) && Next(states[i], steps[i]) == states[i + 1])
  }

  lemma ThroughTwo(s: System, t: System, u: System, a: Step, b: Step, k: nat)
    requires EventRuns.WellFormed(s.world) && EventRuns.WellFormed(t.world) && EventRuns.WellFormed(u.world)
    requires Legal(s, a, k) && Next(s, a) == t && Legal(t, b, k) && Next(t, b) == u
    ensures Through([s, t, u], [a, b], k)
  {
    hide Next, Legal, EventRuns.WellFormed;
  }

  lemma ThroughBoth(a: seq<System>, b: seq<System>, steps: seq<Step>, more: seq<Step>, k: nat)
    requires Through(a, steps, k) && Through(b, more, k) && a[|steps|] == b[0]
    ensures Through(a + b[1..], steps + more, k)
  {
    hide Next, Legal, EventRuns.WellFormed;
    var states := a + b[1..];
    forall i | 0 <= i < |steps + more|
      ensures EventRuns.WellFormed(states[i].world) && Legal(states[i], (steps + more)[i], k)
      ensures Next(states[i], (steps + more)[i]) == states[i + 1]
    {
      if i < |steps| {
        assert states[i] == a[i] && states[i + 1] == a[i + 1];
      } else {
        assert states[i] == b[i - |steps|] && states[i + 1] == b[i - |steps| + 1];
      }
    }
  }

  function FailedRecord(): Record {
    Fail(Processed("h", Events.CLAIM_TTL, Events.CLAIM_LOCK, 0), "E", ErrorBody(""))
  }

  /** The event is leased to the third attempt, and nobody is calling its one handler. */
  predicate LeasedToThird(w: EventRuns.World, record: Record) {
    && w.hashes == ["h"] && w.records == [Some(record)] && w.returned == [0] && w.claimable && w.clock == 2
    && 3 in w.outbox.held && Outbox.HoldsLease(w.outbox.row, "d", w.outbox.held[3].claimVersion, 2)
    && w.attempts.Keys == {1, 2, 3} && w.attempts[1].phase.Aborted? && w.attempts[1].passed == 0
  }

  lemma FailedThenClaimedTwice(maxAttempts: int) returns (t: seq<System>)
    ensures |t| == 6 && Through(t, Fails(), 2) && t[0] == Start(maxAttempts, true, ["h"], 0)
    ensures t[5].reading == map[] && LeasedToThird(t[5].world, FailedRecord())
    ensures t[5].world.attempts[2] == t[5].world.attempts[3] == EventRuns.Attempt(0, EventRuns.Ready, [])
  {
    var u := FailsOnce(maxAttempts);
    var v := ClaimedTwice(u[3]);
    ThroughBoth(u, v, Fails()[..3], Fails()[3..], 2);
    assert Fails()[..3] + Fails()[3..] == Fails();
    t := u + v[1..];
  }

  /** The event is leased to the first attempt until 1, which was aborted after one call. */
  predicate FailedOnce(w: EventRuns.World) {
    && w.hashes == ["h"] && w.records == [Some(FailedRecord())] && w.returned == [0] && w.claimable && w.clock == 0
    && w.outbox.row.status.Publishing? && w.outbox.row.lockedUntil == Some(1)
    && w.attempts.Keys == {1} && w.attempts[1].phase.Aborted? && w.attempts[1].passed == 0
  }

  lemma FailsOnce(maxAttempts: int) returns (t: seq<System>)
    ensures Through(t, Fails()[..3], 2) && t[0] == Start(maxAttempts, true, ["h"], 0)
    ensures t[3].reading == map[] && FailedOnce(t[3].world)
  {
    var s0 := Start(maxAttempts, true, ["h"], 0);
    var s1 := Next(s0, Other(EventRuns.ClaimEvent(1, "d", 1, 0)));
    var s2 := Next(s1, InsertOrRead(1, 0));
    assert s2.world.attempts[1] == EventRuns.Attempt(0, EventRuns.Calling(Events.CLAIM_LOCK), [0]);
    var s3 := Next(s2, Other(EventRuns.HandlerRaises(1, "E", "", 0)));
    assert s3.world.records == [Some(FailedRecord())];
    NothingPending(s0, 2);
    NothingPending(s1, 2);
    NothingPending(s2, 2);
    t := [s0, s1, s2, s3];
    hide InFlight, EventRuns.Next;
    var steps := [Other(EventRuns.ClaimEvent(1, "d", 1, 0)), InsertOrRead(1, 0), Other(EventRuns.HandlerRaises(1, "E", "", 0))];
    assert Fails()[..3] == steps;
  }

  lemma ClaimedTwice(s: System) returns (t: seq<System>)
    requires s.reading == map[] && FailedOnce(s.world)
    ensures Through(t, Fails()[3..], 2) && t[0] == s
    ensures t[2].reading == map[] && LeasedToThird(t[2].world, FailedRecord())
    ensures t[2].world.attempts[2] == t[2].world.attempts[3] == EventRuns.Attempt(0, EventRuns.Ready, [])
  {
    hide FailedRecord;
    assert FailedRecord().expiresAt > 2 by { FailedExpiry(); }
    var s1 := Next(s, Other(EventRuns.ClaimEvent(2, "d", 2, 1)));
    var s2 := Next(s1, Other(EventRuns.ClaimEvent(3, "d", 3, 2)));
    NothingPending(s, 2);
    NothingPending(s1, 2);
    t := [s, s1, s2];
    var a, b := Other(EventRuns.ClaimEvent(2, "d", 2, 1)), Other(EventRuns.ClaimEvent(3, "d", 3, 2));
    assert Fails()[3..] == [a, b];
    ThroughTwo(s, s1, s2, a, b, 2);
    hide InFlight, Through, Legal;
  }

  lemma FailedExpiry()
    ensures FailedRecord().expiresAt > 2
  {
  }

  lemma NothingPending(s: System, k: nat)
    requires |s.reading| <= k
    ensures InFlight(s, k)
  {
    forall i | 0 <= i < |s.world.hashes|
      ensures |Pending(s, i)| <= k
    {
      assert Pending(s, i) <= s.reading.Keys;
      SubsetSize(Pending(s, i), s.reading.Keys);
    }
  }

  lemma {:induction false} SubsetSize(a: set<nat>, b: set<nat>)
    requires a <= b
    ensures |a| <= |b|
    decreases |a|
  {
    if a != {} {
      var x :| x in a;
      SubsetSize(a - {x}, b - {x});
    }
  }

  lemma BothCall(s: System) returns (t: seq<System>)
    requires s.reading == map[] && LeasedToThird(s.world, FailedRecord())
    requires s.world.attempts[2] == s.world.attempts[3] == EventRuns.Attempt(0, EventRuns.Ready, [])
    ensures |t| == 5 && Through(t, Claims(), 2) && t[0] == s
    ensures t[4].reading == map[] && LeasedToThird(t[4].world, Processed("h", Events.CLAIM_TTL, Events.CLAIM_LOCK, 2))
    ensures t[4].world.attempts[2] == t[4].world.attempts[3] == EventRuns.Attempt(0, EventRuns.Calling(2 + Events.CLAIM_LOCK), [0])
  {
    var u := BothRead(s);
    var v := BothDecide(u[2]);
    ThroughBoth(u, v, Claims()[..2], Claims()[2..], 2);
    assert Claims()[..2] + Claims()[2..] == Claims();
    t := u + v[1..];
  }

  lemma BothRead(s: System) returns (t: seq<System>)
    requires s.reading == map[] && LeasedToThird(s.world, FailedRecord())
    requires s.world.attempts[2] == s.world.attempts[3] == EventRuns.Attempt(0, EventRuns.Ready, [])
    ensures Through(t, Claims()[..2], 2) && t[0] == s
    ensures t[2] == s.(reading := map[2 := Reading(FailedRecord(), 2), 3 := Reading(FailedRecord(), 2)])
  {
    hide FailedRecord;
    assert FailedRecord().expiresAt > 2 by { FailedExpiry(); }
    var r := Reading(FailedRecord(), 2);
    var s1 := s.(reading := map[2 := r]);
    var s2 := s.(reading := map[2 := r, 3 := r]);
    assert Next(s, InsertOrRead(2, 2)) == s1;
    assert Next(s1, InsertOrRead(3, 2)) == s2;
    NothingPending(s, 2);
    NothingPending(s1, 2);
    t := [s, s1, s2];
    hide InFlight, EventRuns.Next;
    assert Claims()[..2] == [InsertOrRead(2, 2), InsertOrRead(3, 2)];
  }

  lemma BothDecide(s: System) returns (t: seq<System>)
    requires s.reading == map[2 := Reading(FailedRecord(), 2), 3 := Reading(FailedRecord(), 2)]
    requires LeasedToThird(s.world, FailedRecord())
    requires s.world.attempts[2] == s.world.attempts[3] == EventRuns.Attempt(0, EventRuns.Ready, [])
    ensures Through(t, Claims()[2..], 2) && t[0] == s
    ensures t[2].reading == map[] && LeasedToThird(t[2].world, Processed("h", Events.CLAIM_TTL, Events.CLAIM_LOCK, 2))
    ensures t[2].world.attempts[2] == t[2].world.attempts[3] == EventRuns.Attempt(0, EventRuns.Calling(2 + Events.CLAIM_LOCK), [0])
  {
    var r := Reading(FailedRecord(), 2);
    var target := Processed("h", Events.CLAIM_TTL, Events.CLAIM_LOCK, 2);
    FailedExpiry();
    assert target.expiresAt > 2;
    var w := s.world;
    RetryDecides(w, 2, FailedRecord());
    var w1 := Decided(w, 2, r, 2);
    RetryDecides(w1, 3, target);
    var w2 := Decided(w1, 3, r, 2);
    PendingPair(r);
    assert EventRuns.WellFormed(w) && EventRuns.WellFormed(w1) && EventRuns.WellFormed(w2);
    hide Verdict, Restarted, Processed, FailedRecord, EventRuns.Next, Decided, EventRuns.Timely, EventRuns.WellFormed;
    var s1 := System(w1, map[3 := r]);
    var s2 := System(w2, map[]);
    assert Next(s, Decide(2, 2)) == s1;
    assert Next(s1, Decide(3, 2)) == s2;
    TimelyAtTwo(w, FailedRecord());
    TimelyAtTwo(w1, target);
    NothingPending(s, 2);
    NothingPending(s1, 2);
    t := [s, s1, s2];
    assert Claims()[2..] == [Decide(2, 2), Decide(3, 2)];
    ThroughTwo(s, s1, s2, Decide(2, 2), Decide(3, 2), 2);
    hide InFlight, Next, Through, Legal;
  }

  /** A retry that read the failed record starts over, also on the record of one that did so before. */
  lemma RetryDecides(w: EventRuns.World, h: nat, record: Record)
    requires w.hashes == ["h"] && w.records == [Some(record)] && EventRuns.WellFormed(w) && w.clock == 2
    requires record == FailedRecord() || record == Processed("h", Events.CLAIM_TTL, Events.CLAIM_LOCK, 2)
    requires h in w.attempts && w.attempts[h] == EventRuns.Attempt(0, EventRuns.Ready, [])
    ensures Decided(w, h, Reading(FailedRecord(), 2), 2) ==
            w.(records := [Some(Processed("h", Events.CLAIM_TTL, Events.CLAIM_LOCK, 2))],
               attempts := w.attempts[h := EventRuns.Attempt(0, EventRuns.Calling(2 + Events.CLAIM_LOCK), [0])])
  {
    RetryStarts();
    hide Verdict, Restarted, Processed, FailedRecord;
    var none: seq<nat> := [];
    assert none + [0] == [0];
  }

  lemma TimelyAtTwo(w: EventRuns.World, record: Record)
    requires EventRuns.WellFormed(w) && w.clock == 2 && w.records == [Some(record)] && record.expiresAt > 2
    requires forall h | h in w.attempts && w.attempts[h].phase.Calling? :: w.attempts[h].phase.deadline == 2 + Events.CLAIM_LOCK
    ensures EventRuns.Timely(w, 2)
  {
  }

  lemma PendingPair(r: Reading)
    ensures map[2 := r, 3 := r] - {2} == map[3 := r] && map[3 := r] - {3} == map[]
    ensures |map[2 := r, 3 := r]| == 2
  {
    assert map[2 := r, 3 := r].Keys == {2, 3};
  }

  lemma RetryStarts()
    ensures var r := Reading(FailedRecord(), 2);
            var target := Some(Processed("h", Events.CLAIM_TTL, Events.CLAIM_LOCK, 2));
            Verdict(r, "h") == Ok(Started) && Restarted(Some(FailedRecord()), r, "h") == Restarted(target, r, "h") == target
  {
    hide ClaimRaces.Flushed;
    ClaimRaces.FlushedIsTarget(FailedRecord(), Processed("h", Events.CLAIM_TTL, Events.CLAIM_LOCK, 2));
  }

  lemma BothReturn(s: System) returns (t: seq<System>)
    requires s.reading == map[] && LeasedToThird(s.world, Processed("h", Events.CLAIM_TTL, Events.CLAIM_LOCK, 2))
    requires s.world.attempts[2] == s.world.attempts[3] == EventRuns.Attempt(0, EventRuns.Calling(2 + Events.CLAIM_LOCK), [0])
    ensures |t| == 4 && Through(t, Returns(), 2) && t[0] == s
    ensures InFlight(t[3], 2) && t[3].world.returned == [2] && t[3].world.outbox.row.status.Published?
  {
    var w := s.world;
    var w1, w2, w3 := ReturnsTwice(w);
    hide LeasedToThird, EventRuns.Timely, EventRuns.WellFormed, EventRuns.Next;
    var s1, s2, s3 := System(w1, map[]), System(w2, map[]), System(w3, map[]);
    NothingPending(s, 2);
    NothingPending(s1, 2);
    NothingPending(s2, 2);
    NothingPending(s3, 2);
    hide InFlight;
    var a, b, c := Returns()[0], Returns()[1], Returns()[2];
    ThroughThree(s, s1, s2, s3, a, b, c, 2);
    hide Through;
    assert Returns() == [a, b, c];
    t := [s, s1, s2, s3];
  }

  lemma ReturnsTwice(w: EventRuns.World) returns (w1: EventRuns.World, w2: EventRuns.World, w3: EventRuns.World)
    requires EventRuns.WellFormed(w) && LeasedToThird(w, Processed("h", Events.CLAIM_TTL, Events.CLAIM_LOCK, 2))
    requires w.attempts[2] == w.attempts[3] == EventRuns.Attempt(0, EventRuns.Calling(2 + Events.CLAIM_LOCK), [0])
    ensures EventRuns.WellFormed(w1) && EventRuns.WellFormed(w2) && EventRuns.WellFormed(w3)
    ensures EventRuns.Timely(w, 2) && EventRuns.Timely(w1, 2) && EventRuns.Timely(w2, 2)
    ensures w1 == EventRuns.Next(w, EventRuns.HandlerReturns(2, "", "", 2))
    ensures w2 == EventRuns.Next(w1, EventRuns.HandlerReturns(3, "", "", 2))
    ensures w3 == EventRuns.Next(w2, EventRuns.MarkPublished(3, "d", 2))
    ensures w3.returned == [2] && w3.outbox.row.status.Published?
  {
    var record := Processed("h", Events.CLAIM_TTL, Events.CLAIM_LOCK, 2);
    var done := Succeed(record, "OK", "", None, Some(""));
    assert record.expiresAt > 2 && done.expiresAt > 2 && Succeed(done, "OK", "", None, Some("")) == done;
    hide Processed, Succeed;
    HandlerIsDone(w, 2, record);
    w1 := EventRuns.Next(w, EventRuns.HandlerReturns(2, "", "", 2));
    HandlerIsDone(w1, 3, done);
    w2 := EventRuns.Next(w1, EventRuns.HandlerReturns(3, "", "", 2));
    ThirdPublishes(w2);
    w3 := EventRuns.Next(w2, EventRuns.MarkPublished(3, "d", 2));
    hide EventRuns.Next, EventRuns.Timely;
    TimelyAtTwo(w, record);
    TimelyAtTwo(w1, done);
    TimelyAtTwo(w2, done);
  }

  lemma ThroughThree(s: System, t: System, u: System, v: System, a: Step, b: Step, c: Step, k: nat)
    requires EventRuns.WellFormed(s.world) && EventRuns.WellFormed(t.world) && EventRuns.WellFormed(u.world) && EventRuns.WellFormed(v.world)
    requires Legal(s, a, k) && Next(s, a) == t && Legal(t, b, k) && Next(t, b) == u && Legal(u, c, k) && Next(u, c) == v
    ensures Through([s, t, u, v], [a, b, c], k)
  {
    hide Next, Legal, EventRuns.WellFormed;
  }

  /** A call of the one handler returns: its success is recorded, and the attempt is finished. */
  lemma HandlerIsDone(w: EventRuns.World, h: nat, record: Record)
    requires w.hashes == ["h"] && w.records == [Some(record)] && |w.returned| == 1 && EventRuns.WellFormed(w) && w.clock == 2
    requires h in w.attempts && w.attempts[h] == EventRuns.Attempt(0, EventRuns.Calling(2 + Events.CLAIM_LOCK), [0])
    ensures EventRuns.Next(w, EventRuns.HandlerReturns(h, "", "", 2)) ==
            w.(records := [Some(Succeed(record, "OK", "", None, Some("")))],
               returned := [w.returned[0] + 1],
               attempts := w.attempts[h := EventRuns.Attempt(1, EventRuns.Finished, [0])])
  {
  }

  lemma ThirdPublishes(w: EventRuns.World)
    requires EventRuns.WellFormed(w) && 3 in w.attempts && w.attempts[3].phase.Finished?
    requires 3 in w.outbox.held && Outbox.HoldsLease(w.outbox.row, "d", w.outbox.held[3].claimVersion, 2)
    ensures var t := EventRuns.Next(w, EventRuns.MarkPublished(3, "d", 2));
            && EventRuns.WellFormed(t) && t.outbox.row.status.Published? && t.returned == w.returned
  {
  }

  /** The handler returns twice, and the event is published. */
  lemma TwoRetriesReturnTwice(maxAttempts: int)
    ensures var s := Start(maxAttempts, true, ["h"], 0);
            && LegalRun(s, TwoRetries(), 2)
            && Run(s, TwoRetries(), 2).world.returned == [2]
            && Run(s, TwoRetries(), 2).world.outbox.row.status.Published?
  {
    hide Next, Legal, InFlight, LeasedToThird, Fails, Claims, Returns, Through;
    var t := FailedThenClaimedTwice(maxAttempts);
    var u := BothCall(t[5]);
    var v := BothReturn(u[4]);
    ThroughBoth(t, u, Fails(), Claims(), 2);
    ThroughBoth(t + u[1..], v, Fails() + Claims(), Returns(), 2);
    RunThrough(t + u[1..] + v[1..], TwoRetries(), 0, 2);
    assert TwoRetries()[0..] == TwoRetries();
  }

  lemma {:induction false} RunThrough(states: seq<System>, steps: seq<Step>, n: nat, k: nat)
    requires Through(states, steps, k) && n <= |steps| && InFlight(states[|steps|], k)
    ensures LegalRun(states[n], steps[n..], k) && Run(states[n], steps[n..], k) == states[|steps|]
    decreases |steps| - n
  {
    hide Next, Legal, InFlight;
    if n < |steps| {
      RunThrough(states, steps, n + 1, k);
      assert steps[n..][0] == steps[n] && steps[n..][1..] == steps[n + 1..];
    } else {
      assert steps[n..] == [];
    }
  }

  lemma {:induction false} LegalMonotone(s: System, steps: seq<Step>, k: nat, more: nat)
    requires k <= more && LegalRun(s, steps, k)
    ensures LegalRun(s, steps, more) && Run(s, steps, more) == Run(s, steps, k)
    decreases |steps|
  {
    hide Next;
    if steps != [] {
      LegalMonotone(Next(s, steps[0]), steps[1..], k, more);
    }
  }

  lemma SerialClaimsReturnOnce(s: System, steps: seq<Step>, k: nat)
    requires Inv(s) && k <= 1 && LegalRun(s, steps, k)
    ensures Once(Run(s, steps, k).world)
  {
    hide Next, Legal, Once;
    LegalMonotone(s, steps, k, 1);
    RunInv(s, steps);
    InvMeansOnce(Run(s, steps, 1).world);
  }

  /** Each handler of an event returns at most once over all attempts, and exactly once if the event is published,
      exactly when claims of one handler do not overlap. */
  lemma AlwaysOnceIff(k: nat)
    ensures AlwaysOnce(k) <==> k <= 1
  {
    hide Next, Legal, LegalRun, Run, TwoRetries;
    if k <= 1 {
      forall maxAttempts: int, claimable: bool, hashes: seq<string>, clock: int, steps: seq<Step>
        | LegalRun(Start(maxAttempts, claimable, hashes, clock), steps, k)
        ensures Once(Run(Start(maxAttempts, claimable, hashes, clock), steps, k).world)
      {
        SerialClaimsReturnOnce(Start(maxAttempts, claimable, hashes, clock), steps, k);
      }
    } else {
      TwoRetriesReturnTwice(3);
      LegalMonotone(Start(3, true, ["h"], 0), TwoRetries(), 2, k);
      assert Run(Start(3, true, ["h"], 0), TwoRetries(), k).world.returned[0] == 2;
    }
  }
}
