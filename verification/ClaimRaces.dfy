/** Claims and expiry sweeps of one idempotency key that are read and written apart. A claim first tries to insert; the
    unique key lets one insert through. A claim that finds a record decides on what it read, and its write is unguarded,
    as is the write of a sweep: they set the columns whose new value differs from the value read, on whatever the record
    has become. */
module ClaimRaces {
  import opened Common
  import opened Idempotency
  import opened IdempotencyRuns

  /** What a claim asked for and the record that it read. */
  datatype Reading = Reading(snapshot: Record, requestHash: string, ttl: int, lock: int, retryFailed: bool, now: int)

  /** `reading` holds the claims between their read and their decision, `sweeping` the expired record that each sweep
      found and has not yet written. */
  datatype System = System(key: KeyState, reading: map<nat, Reading>, sweeping: map<nat, Record>)

  datatype RaceStep =
    | InsertOrRead(run: nat, requestHash: string, ttl: int, lock: int, retryFailed: bool, now: int)
    | Decide(run: nat)
    | FindExpired(sweep: nat, now: int)
    | WriteExpired(sweep: nat)
    | Other(step: Step)

  function Start(clock: int): System {
    System(IdempotencyRuns.Init(clock), map[], map[])
  }

  /** What the claim makes of its snapshot. */
  function Verdict(r: Reading): Result<Outcome> {
    Claim(Some(r.snapshot), r.requestHash, r.ttl, r.lock, r.now, r.retryFailed).1
  }

  /** The record after a write on what it is now, by somebody who read `seen` and set `target`. */
  function Flushed(current: Record, seen: Record, target: Record): Record {
    Record(
      Sent(current.requestHash, seen.requestHash, target.requestHash),
      Sent(current.status, seen.status, target.status),
      Sent(current.responseCode, seen.responseCode, target.responseCode),
      Sent(current.responseBody, seen.responseBody, target.responseBody),
      Sent(current.taskId, seen.taskId, target.taskId),
      Sent(current.outboxEventId, seen.outboxEventId, target.outboxEventId),
      Sent(current.lockedUntil, seen.lockedUntil, target.lockedUntil),
      Sent(current.expiresAt, seen.expiresAt, target.expiresAt))
  }

  /** A write sends the columns whose value it changes from what it read, and leaves the others as they are by now. */
  lemma FlushWrites(current: Record, seen: Record, target: Record)
    ensures var f := Flushed(current, seen, target);
            && f.requestHash == (if target.requestHash == seen.requestHash then current.requestHash else target.requestHash)
            && f.status == (if target.status == seen.status then current.status else target.status)
            && f.responseCode == (if target.responseCode == seen.responseCode then current.responseCode else target.responseCode)
            && f.responseBody == (if target.responseBody == seen.responseBody then current.responseBody else target.responseBody)
            && f.taskId == (if target.taskId == seen.taskId then current.taskId else target.taskId)
            && f.outboxEventId == (if target.outboxEventId == seen.outboxEventId then current.outboxEventId else target.outboxEventId)
            && f.lockedUntil == (if target.lockedUntil == seen.lockedUntil then current.lockedUntil else target.lockedUntil)
            && f.expiresAt == (if target.expiresAt == seen.expiresAt then current.expiresAt else target.expiresAt)
  {
  }

  function Restarted(current: Option<Record>, r: Reading): Option<Record> {
    if current.None? then None
    else Some(Flushed(current.value, r.snapshot, Processed(r.requestHash, r.ttl, r.lock, r.now)))
  }

  function Expiring(current: Option<Record>, found: Record): Option<Record> {
    if current.None? then None
    else Some(Flushed(current.value, found, found.(status := Expired, lockedUntil := None)))
  }

  function NextRace(s: System, step: RaceStep): System {
    match step
    case InsertOrRead(run, hash, ttl, lock, retryFailed, now) =>
      if s.key.record.None? then s.(key := IdempotencyRuns.Next(s.key, Begin(run, hash, ttl, lock, retryFailed, now)))
      else
        s.(key := s.key.(clock := now),
           reading := s.reading[run := Reading(s.key.record.value, hash, ttl, lock, retryFailed, now)])
    case Decide(run) =>
      if run !in s.reading then s
      else
        var r := s.reading[run];
        if Verdict(r) == Ok(Started) then
          s.(key := s.key.(record := Restarted(s.key.record, r),
                           active := s.key.active[run := Hold(r.now, r.now + r.lock, r.now + r.ttl)]),
             reading := s.reading - {run})
        else s.(reading := s.reading - {run})
    case FindExpired(w, now) =>
      if s.key.record.Some? && !s.key.record.value.status.Expired? && s.key.record.value.expiresAt <= now
      then s.(key := s.key.(clock := now), sweeping := s.sweeping[w := s.key.record.value])
      else s.(key := s.key.(clock := now))
    case WriteExpired(w) =>
      if w in s.sweeping
      then s.(key := s.key.(record := Expiring(s.key.record, s.sweeping[w])), sweeping := s.sweeping - {w})
      else s
    case Other(inner) => s.(key := IdempotencyRuns.Next(s.key, inner))
  }

  function RunRace(s: System, steps: seq<RaceStep>): System
    decreases |steps|
  {
    if steps == [] then s else RunRace(NextRace(s, steps[0]), steps[1..])
  }

  /** At most k claims are between their read and their decision and, when kept `apart`, no sweep is under way then. */
  predicate InFlight(s: System, k: nat, apart: bool) {
    |s.reading| <= k && (apart ==> s.reading == map[] || s.sweeping == map[])
  }

  /** Every claim asks for the same lock and lifetime, an outcome is marked at most d after its claim began, and the
      clock does not go back. */
  predicate Allowed(s: System, step: RaceStep, ttl: int, lock: int, d: int, k: nat, apart: bool) {
    && InFlight(s, k, apart)
    && match step
       case InsertOrRead(run, _, t, l, _, now) => s.key.clock <= now && run !in s.key.active && run !in s.reading && t == ttl && l == lock
       case Decide(_) => true
       case FindExpired(w, now) => s.key.clock <= now && w !in s.sweeping
       case WriteExpired(_) => true
       case Other(inner) => !inner.Begin? && !inner.Sweep? && Prompt(s.key, inner, ttl, lock, d)
  }

  predicate AllAllowed(s: System, steps: seq<RaceStep>, ttl: int, lock: int, d: int, k: nat, apart: bool)
    decreases |steps|
  {
    if steps == [] then InFlight(s, k, apart)
    else Allowed(s, steps[0], ttl, lock, d, k, apart) && AllAllowed(NextRace(s, steps[0]), steps[1..], ttl, lock, d, k, apart)
  }

  // ----- what nothing interrupts, and two claims that read the same record -----

  /** A write on the record that was read, or on one that has the new values already, leaves the new values. */
  lemma FlushedIsTarget(seen: Record, target: Record)
    ensures Flushed(seen, seen, target) == target && Flushed(target, seen, target) == target
  {
  }

  /** Read and decided at once, a claim is the atomic claim. */
  lemma ReadThenDecideIsClaim(s: System, step: RaceStep)
    requires step.InsertOrRead? && step.run !in s.key.active && step.run !in s.reading
    ensures NextRace(NextRace(s, step), Decide(step.run)) ==
            s.(key := IdempotencyRuns.Next(s.key, Begin(step.run, step.requestHash, step.ttl, step.lock, step.retryFailed, step.now)))
  {
    hide Flushed;
    var t := NextRace(s, step);
    if s.key.record.Some? {
      FlushedIsTarget(s.key.record.value, Processed(step.requestHash, step.ttl, step.lock, step.now));
      assert t.reading - {step.run} == s.reading;
    } else {
      assert step.run !in t.reading;
    }
  }

  /** Found and written at once, a sweep is the atomic sweep. */
  lemma FindThenWriteIsSweep(s: System, w: nat, now: int)
    requires w !in s.sweeping
    ensures NextRace(NextRace(s, FindExpired(w, now)), WriteExpired(w)) == s.(key := IdempotencyRuns.Next(s.key, Sweep(now)))
  {
    hide Flushed;
    var t := NextRace(s, FindExpired(w, now));
    if w in t.sweeping {
      var found := s.key.record.value;
      FlushedIsTarget(found, found.(status := Expired, lockedUntil := None));
      assert t.sweeping - {w} == s.sweeping;
    }
  }

  /** Of two claims that see the same state both start exactly when there is a record and each of them may start over
      on it: it is expired, or its lock is past, or it failed and may be retried. An absent record lets one start. */
  lemma BothStartIff(s: System, a: RaceStep, b: RaceStep)
    requires a.InsertOrRead? && b.InsertOrRead? && a.run != b.run && s.reading == map[]
    requires a.run !in s.key.active && b.run !in s.key.active && a.requestHash == b.requestHash && a.now == b.now && a.lock > 0 && a.ttl > 0
    ensures var t := NextRace(NextRace(NextRace(NextRace(s, a), b), Decide(a.run)), Decide(b.run));
            (a.run in t.key.active && b.run in t.key.active) <==>
            && s.key.record.Some?
            && Claim(s.key.record, a.requestHash, a.ttl, a.lock, a.now, a.retryFailed).1 == Ok(Started)
            && Claim(s.key.record, b.requestHash, b.ttl, b.lock, b.now, b.retryFailed).1 == Ok(Started)
  {
  }

  // ----- one claim at a time -----

  /** While a claim that may start over is pending, the record is what it read, nobody is inside its lock and no
      success stands. */
  predicate PendingIsAlone(s: System) {
    forall run | run in s.reading ::
      && s.key.record.Some? && s.reading[run].now <= s.key.clock
      && (Verdict(s.reading[run]) == Ok(Started) ==>
            && s.key.record == Some(s.reading[run].snapshot)
            && (forall a | a in s.key.active :: !Inside(s.key, a))
            && (forall i | 0 <= i < |s.key.successes| :: s.key.successes[i].record.expiresAt <= s.key.clock))
  }

  /** A sweep that is under way found the record as it is, or another one has swept it. */
  predicate SweepsFindIt(s: System) {
    forall w | w in s.sweeping ::
      && s.key.record.Some? && s.key.record.value.expiresAt <= s.key.clock
      && (s.key.record == Some(s.sweeping[w]) || (s.key.record.value.status.Expired? && s.key.record.value.lockedUntil.None?))
  }

  predicate ReadingsAre(s: System, ttl: int, lock: int) {
    forall run | run in s.reading :: s.reading[run].ttl == ttl && s.reading[run].lock == lock
  }

  predicate RaceInv(s: System, ttl: int, lock: int) {
    Inv(s.key) && HoldsAre(s.key, ttl, lock) && ReadingsAre(s, ttl, lock) && PendingIsAlone(s) && SweepsFindIt(s)
  }

  /** A record on which a claim may start over belongs to nobody inside its lock and is no standing success. */
  lemma RestartableIsFree(k: KeyState, r: Reading)
    requires Inv(k) && k.record == Some(r.snapshot) && k.clock <= r.now && Verdict(r) == Ok(Started)
    ensures forall a | a in k.active :: !Before(k.active[a], r.now)
    ensures forall i | 0 <= i < |k.successes| :: k.successes[i].record.expiresAt <= r.now
  {
    forall a | a in k.active
      ensures !Before(k.active[a], r.now)
    {
      assert Inside(k, a) ==> k.record.value.status.Processing?;
    }
    forall i | 0 <= i < |k.successes|
      ensures k.successes[i].record.expiresAt <= r.now
    {
      assert k.successes[i].record.expiresAt <= k.clock || k.record == Some(k.successes[i].record);
    }
  }

  lemma ReadKeepsInv(s: System, step: RaceStep, ttl: int, lock: int, d: int)
    requires RaceInv(s, ttl, lock) && Allowed(s, step, ttl, lock, d, 1, true) && step.InsertOrRead?
    ensures RaceInv(NextRace(s, step), ttl, lock)
  {
    var t := NextRace(s, step);
    if s.key.record.None? {
      var begin := Begin(step.run, step.requestHash, step.ttl, step.lock, step.retryFailed, step.now);
      NextInv(s.key, begin);
      assert s.reading == map[];
    } else {
      LaterClock(s.key, step.now);
      var r := t.reading[step.run];
      if Verdict(r) == Ok(Started) {
        RestartableIsFree(s.key, r);
      }
    }
  }

  lemma LaterClock(k: KeyState, now: int)
    requires Inv(k) && k.clock <= now
    ensures Inv(k.(clock := now))
  {
  }

  lemma OnlyReading(reading: map<nat, Reading>, run: nat)
    requires |reading| <= 1 && run in reading
    ensures reading - {run} == map[]
  {
    var rest := reading.Keys - {run};
    assert |rest| == |reading.Keys| - 1 && |reading.Keys| == |reading|;
    assert (reading - {run}).Keys == rest;
  }

  lemma DecideKeepsInv(s: System, run: nat, ttl: int, lock: int)
    requires RaceInv(s, ttl, lock) && InFlight(s, 1, true)
    ensures RaceInv(NextRace(s, Decide(run)), ttl, lock)
  {
    if run in s.reading {
      OnlyReading(s.reading, run);
      var r := s.reading[run];
      var t := NextRace(s, Decide(run));
      if Verdict(r) == Ok(Started) {
        hide Verdict, Flushed;
        FlushedIsTarget(r.snapshot, Processed(r.requestHash, r.ttl, r.lock, r.now));
        forall a | a in t.key.active && a != run
          ensures !Inside(t.key, a)
        {
          assert !Inside(s.key, a);
        }
      }
    }
  }

  /** A run that marks its outcome in time owns the record, so no sweep is under way and no claim may start over. */
  lemma MarkHasNoRivals(s: System, inner: Step, ttl: int, lock: int, d: int)
    requires RaceInv(s, ttl, lock) && (inner.Return? || inner.Raise?) && inner.run in s.key.active
    requires Prompt(s.key, inner, ttl, lock, d) && d < Min(lock, ttl)
    ensures Legal(s.key, inner) && Inside(s.key, inner.run) && s.sweeping == map[]
    ensures forall run | run in s.reading :: Verdict(s.reading[run]) != Ok(Started)
  {
    hide Verdict, SuccessStands, LifetimesApart, ResponsesRecorded, AtMostOneInside;
    assert Inside(s.key, inner.run);
    forall w
      ensures w !in s.sweeping
    {
    }
    assert s.sweeping.Keys == {};
  }

  lemma OtherKeepsInv(s: System, inner: Step, ttl: int, lock: int, d: int)
    requires RaceInv(s, ttl, lock) && !inner.Begin? && !inner.Sweep? && Prompt(s.key, inner, ttl, lock, d) && d < Min(lock, ttl)
    ensures RaceInv(NextRace(s, Other(inner)), ttl, lock)
  {
    if !inner.Crash? && inner.run in s.key.active {
      MarkHasNoRivals(s, inner, ttl, lock, d);
      OwnMarkKeepsRivals(s, inner);
    } else {
      QuietStepKeepsRivals(s, inner);
    }
    NextInv(s.key, inner);
    OtherKeepsHolds(s.key, inner, ttl, lock);
    hide Inv, Verdict, PendingIsAlone, SweepsFindIt, HoldsAre, IdempotencyRuns.Next;
  }

  lemma OtherKeepsHolds(k: KeyState, inner: Step, ttl: int, lock: int)
    requires HoldsAre(k, ttl, lock) && !inner.Begin? && !inner.Sweep?
    ensures HoldsAre(IdempotencyRuns.Next(k, inner), ttl, lock)
  {
    hide Succeed, Fail;
  }

  lemma OwnMarkKeepsRivals(s: System, inner: Step)
    requires PendingIsAlone(s) && (inner.Return? || inner.Raise?) && s.key.clock <= inner.now
    requires s.sweeping == map[] && forall run | run in s.reading :: Verdict(s.reading[run]) != Ok(Started)
    ensures PendingIsAlone(NextRace(s, Other(inner))) && SweepsFindIt(NextRace(s, Other(inner)))
  {
    hide Verdict, Succeed, Fail;
  }

  lemma QuietStepKeepsRivals(s: System, inner: Step)
    requires PendingIsAlone(s) && SweepsFindIt(s) && !inner.Begin? && !inner.Sweep? && s.key.clock <= inner.now
    requires inner.Crash? || inner.run !in s.key.active
    ensures PendingIsAlone(NextRace(s, Other(inner))) && SweepsFindIt(NextRace(s, Other(inner)))
  {
    hide Verdict, Succeed, Fail;
  }

  lemma FindKeepsInv(s: System, step: RaceStep, ttl: int, lock: int, d: int)
    requires RaceInv(s, ttl, lock) && Allowed(s, step, ttl, lock, d, 1, true) && step.FindExpired?
    ensures RaceInv(NextRace(s, step), ttl, lock)
  {
    hide Verdict, SuccessStands, LifetimesApart, ResponsesRecorded, AtMostOneInside;
    LaterClock(s.key, step.now);
  }

  /** The write of a sweep leaves an expired record without a lock, and its expiry as it was. */
  lemma ExpiringFacts(s: System, w: nat)
    requires SweepsFindIt(s) && Shape(s.key) && w in s.sweeping
    ensures var r := Expiring(s.key.record, s.sweeping[w]);
            && s.key.record.Some? && s.key.record.value.expiresAt <= s.key.clock
            && r.Some? && r.value.status.Expired? && r.value.lockedUntil.None?
            && r.value.expiresAt == s.key.record.value.expiresAt
  {
  }

  lemma WriteKeepsInv(s: System, w: nat, ttl: int, lock: int)
    requires RaceInv(s, ttl, lock) && InFlight(s, 1, true)
    ensures RaceInv(NextRace(s, WriteExpired(w)), ttl, lock)
  {
    if w in s.sweeping {
      ExpiringFacts(s, w);
      hide Verdict, Expiring;
      forall i | 0 <= i < |s.key.successes|
        ensures s.key.successes[i].record.expiresAt <= s.key.clock
      {
        assert s.key.record == Some(s.key.successes[i].record) ==> s.key.record.value.expiresAt <= s.key.clock;
      }
    }
  }

  lemma NextRaceInv(s: System, step: RaceStep, ttl: int, lock: int, d: int)
    requires RaceInv(s, ttl, lock) && Allowed(s, step, ttl, lock, d, 1, true) && d < Min(lock, ttl)
    ensures RaceInv(NextRace(s, step), ttl, lock)
  {
    hide RaceInv, NextRace;
    match step
    case InsertOrRead(_, _, _, _, _, _) => ReadKeepsInv(s, step, ttl, lock, d);
    case Decide(run) => DecideKeepsInv(s, run, ttl, lock);
    case FindExpired(_, _) => FindKeepsInv(s, step, ttl, lock, d);
    case WriteExpired(w) => WriteKeepsInv(s, w, ttl, lock);
    case Other(inner) => OtherKeepsInv(s, inner, ttl, lock, d);
  }

  lemma {:induction false} RunRaceInv(s: System, steps: seq<RaceStep>, ttl: int, lock: int, d: int)
    requires RaceInv(s, ttl, lock) && AllAllowed(s, steps, ttl, lock, d, 1, true) && d < Min(lock, ttl)
    ensures RaceInv(RunRace(s, steps), ttl, lock)
    decreases |steps|
  {
    hide RaceInv, NextRace, Allowed;
    if steps != [] {
      NextRaceInv(s, steps[0], ttl, lock, d);
      RunRaceInv(NextRace(s, steps[0]), steps[1..], ttl, lock, d);
    }
  }

  // ----- runs that break it -----

  /** One claim at a time, but handlers that outlive their lock or their record. */
  function LateRaces(ttl: int, lock: int, hash: string, body: string): seq<RaceStep> {
    var late := Max(Min(lock, ttl), 0);
    [InsertOrRead(1, hash, ttl, lock, false, 0), InsertOrRead(2, hash, ttl, lock, false, late), Decide(2),
     Other(Return(1, "OK", body, None, None, late)), Other(Return(2, "OK", body, None, None, late))]
  }

  /** Handlers that take no time, but two retries that read one failed record. */
  function TwoRetries(ttl: int, lock: int, hash: string, body: string): seq<RaceStep> {
    [InsertOrRead(1, hash, ttl, lock, true, 0), Other(Raise(1, "E", body, 0)),
     InsertOrRead(2, hash, ttl, lock, true, 0), InsertOrRead(3, hash, ttl, lock, true, 0), Decide(2), Decide(3),
     Other(Return(2, "OK", body, None, None, 0)), Other(Return(3, "OK", body, None, None, 0))]
  }

  /** A pending claim that may start over does so when it decides. */
  lemma DecideAllowed(s: System, run: nat, ttl: int, lock: int, d: int, k: nat, apart: bool)
    requires InFlight(s, k, apart)
    ensures Allowed(s, Decide(run), ttl, lock, d, k, apart)
  {
  }

  lemma DecideStarts(s: System, run: nat)
    requires run in s.reading && Verdict(s.reading[run]) == Ok(Started)
    ensures var r := s.reading[run];
            NextRace(s, Decide(run)) ==
            System(KeyState(Restarted(s.key.record, r), s.key.active[run := Hold(r.now, r.now + r.lock, r.now + r.ttl)],
                            s.key.successes, s.key.clock),
                   s.reading - {run}, s.sweeping)
  {
  }

  /** Two runs that are active on one record, and both return now. */
  lemma TwoReturns(s: System, a: nat, b: nat, body: string, ttl: int, lock: int, d: int) returns (t: System, u: System)
    requires s.reading == map[] && s.key.record.Some? && s.key.successes == [] && a != b
    requires a in s.key.active && b in s.key.active && s.key.clock < s.key.record.value.expiresAt
    requires s.key.clock <= s.key.active[a].since + d && s.key.clock <= s.key.active[b].since + d
    ensures t == NextRace(s, Other(Return(a, "OK", body, None, None, s.key.clock)))
    ensures u == NextRace(t, Other(Return(b, "OK", body, None, None, s.key.clock)))
    ensures forall k: nat, apart: bool :: Allowed(s, Other(Return(a, "OK", body, None, None, s.key.clock)), ttl, lock, d, k, apart)
    ensures forall k: nat, apart: bool :: Allowed(t, Other(Return(b, "OK", body, None, None, s.key.clock)), ttl, lock, d, k, apart)
    ensures u.reading == map[] && !OncePerLifetime(u.key)
  {
    t := NextRace(s, Other(Return(a, "OK", body, None, None, s.key.clock)));
    assert b in t.key.active && |t.key.successes| == 1 && t.key.successes[0].record.expiresAt == s.key.record.value.expiresAt;
    u := NextRace(t, Other(Return(b, "OK", body, None, None, s.key.clock)));
    assert |u.key.successes| == 2 && u.key.successes[0] == t.key.successes[0] && u.key.successes[1].at == s.key.clock;
  }

  lemma LateRacesSucceedTwice(ttl: int, lock: int, d: int, hash: string, body: string)
    requires ttl > 0 && d >= 0 && d >= Min(lock, ttl)
    ensures AllAllowed(Start(0), LateRaces(ttl, lock, hash, body), ttl, lock, d, 1, true)
    ensures !OncePerLifetime(RunRace(Start(0), LateRaces(ttl, lock, hash, body)).key)
  {
    hide NextRace, Allowed;
    var steps := LateRaces(ttl, lock, hash, body);
    var s1, s2, s3 := LateClaims(ttl, lock, d, hash, body);
    var s4, s5 := TwoReturns(s3, 1, 2, body, ttl, lock, d);
    Unroll(s4, s5, steps, 4, ttl, lock, d, 1, true);
    Unroll(s3, s4, steps, 3, ttl, lock, d, 1, true);
    Unroll(s2, s3, steps, 2, ttl, lock, d, 1, true);
    Unroll(s1, s2, steps, 1, ttl, lock, d, 1, true);
    Unroll(Start(0), s1, steps, 0, ttl, lock, d, 1, true);
    assert steps[5..] == [] && steps[0..] == steps;
  }

  lemma LateClaims(ttl: int, lock: int, d: int, hash: string, body: string) returns (s1: System, s2: System, s3: System)
    requires ttl > 0 && d >= 0 && d >= Min(lock, ttl)
    ensures var steps := LateRaces(ttl, lock, hash, body);
            && s1 == NextRace(Start(0), steps[0]) && s2 == NextRace(s1, steps[1]) && s3 == NextRace(s2, steps[2])
            && Allowed(Start(0), steps[0], ttl, lock, d, 1, true) && Allowed(s1, steps[1], ttl, lock, d, 1, true) && Allowed(s2, steps[2], ttl, lock, d, 1, true)
    ensures var late := Max(Min(lock, ttl), 0);
            var holds := map[1 := Hold(0, lock, ttl), 2 := Hold(late, late + lock, late + ttl)];
            s3 == System(KeyState(Some(Processed(hash, ttl, lock, late)), holds, [], late), map[], map[])
  {
    var steps := LateRaces(ttl, lock, hash, body);
    var late := Max(Min(lock, ttl), 0);
    var first := Processed(hash, ttl, lock, 0);
    var r := Reading(first, hash, ttl, lock, false, late);
    s1 := System(KeyState(Some(first), map[1 := Hold(0, lock, ttl)], [], 0), map[], map[]);
    assert s1 == NextRace(Start(0), steps[0]);
    s2 := System(KeyState(Some(first), map[1 := Hold(0, lock, ttl)], [], late), map[2 := r], map[]);
    LateRead(ttl, lock, hash, body, s1, s2);
    hide NextRace;
    assert Verdict(r) == Ok(Started);
    hide Verdict;
    DecideStarts(s2, 2);
    s3 := NextRace(s2, steps[2]);
    assert map[2 := r] - {2} == map[];
  }

  lemma LateRead(ttl: int, lock: int, hash: string, body: string, s1: System, s2: System)
    requires s1 == System(KeyState(Some(Processed(hash, ttl, lock, 0)), map[1 := Hold(0, lock, ttl)], [], 0), map[], map[])
    requires var late := Max(Min(lock, ttl), 0);
             s2 == System(s1.key.(clock := late), map[2 := Reading(Processed(hash, ttl, lock, 0), hash, ttl, lock, false, late)], map[])
    ensures s2 == NextRace(s1, LateRaces(ttl, lock, hash, body)[1])
  {
    hide Processed;
  }

  lemma TwoRetriesSucceedTwice(ttl: int, lock: int, d: int, hash: string, body: string)
    requires ttl > 0 && d >= 0
    ensures AllAllowed(Start(0), TwoRetries(ttl, lock, hash, body), ttl, lock, d, 2, true)
    ensures !OncePerLifetime(RunRace(Start(0), TwoRetries(ttl, lock, hash, body)).key)
  {
    hide NextRace, Allowed;
    var steps := TwoRetries(ttl, lock, hash, body);
    var s1, s2 := FailedOnce(ttl, lock, d, hash, body);
    var s3, s4 := BothRead(s2, ttl, lock, d, hash, body);
    var s5, s6 := BothDecide(s4, ttl, lock, d, hash, body);
    var s7, s8 := TwoReturns(s6, 2, 3, body, ttl, lock, d);
    Unroll(s7, s8, steps, 7, ttl, lock, d, 2, true);
    Unroll(s6, s7, steps, 6, ttl, lock, d, 2, true);
    Unroll(s5, s6, steps, 5, ttl, lock, d, 2, true);
    Unroll(s4, s5, steps, 4, ttl, lock, d, 2, true);
    Unroll(s3, s4, steps, 3, ttl, lock, d, 2, true);
    Unroll(s2, s3, steps, 2, ttl, lock, d, 2, true);
    Unroll(s1, s2, steps, 1, ttl, lock, d, 2, true);
    Unroll(Start(0), s1, steps, 0, ttl, lock, d, 2, true);
    assert steps[8..] == [] && steps[0..] == steps;
  }

  function FailedRecord(ttl: int, lock: int, hash: string, body: string): Record {
    Fail(Processed(hash, ttl, lock, 0), "E", body)
  }

  function Retry(ttl: int, lock: int, hash: string, body: string): Reading {
    Reading(FailedRecord(ttl, lock, hash, body), hash, ttl, lock, true, 0)
  }

  lemma FailedOnce(ttl: int, lock: int, d: int, hash: string, body: string) returns (s1: System, s2: System)
    requires ttl > 0 && d >= 0
    ensures var steps := TwoRetries(ttl, lock, hash, body);
            && s1 == NextRace(Start(0), steps[0]) && s2 == NextRace(s1, steps[1])
            && Allowed(Start(0), steps[0], ttl, lock, d, 2, true) && Allowed(s1, steps[1], ttl, lock, d, 2, true)
    ensures s2 == System(KeyState(Some(FailedRecord(ttl, lock, hash, body)), map[], [], 0), map[], map[])
  {
    s1 := System(KeyState(Some(Processed(hash, ttl, lock, 0)), map[1 := Hold(0, lock, ttl)], [], 0), map[], map[]);
    assert s1 == NextRace(Start(0), TwoRetries(ttl, lock, hash, body)[0]);
    s2 := NextRace(s1, TwoRetries(ttl, lock, hash, body)[1]);
    assert map[1 := Hold(0, lock, ttl)] - {1} == map[];
  }

  lemma BothRead(s2: System, ttl: int, lock: int, d: int, hash: string, body: string) returns (s3: System, s4: System)
    requires s2 == System(KeyState(Some(FailedRecord(ttl, lock, hash, body)), map[], [], 0), map[], map[])
    ensures var steps := TwoRetries(ttl, lock, hash, body);
            && s3 == NextRace(s2, steps[2]) && s4 == NextRace(s3, steps[3])
            && Allowed(s2, steps[2], ttl, lock, d, 2, true) && Allowed(s3, steps[3], ttl, lock, d, 2, true)
    ensures s4 == System(s2.key, map[2 := Retry(ttl, lock, hash, body), 3 := Retry(ttl, lock, hash, body)], map[])
  {
    hide FailedRecord;
    s3 := NextRace(s2, TwoRetries(ttl, lock, hash, body)[2]);
    s4 := NextRace(s3, TwoRetries(ttl, lock, hash, body)[3]);
  }

  lemma BothDecide(s4: System, ttl: int, lock: int, d: int, hash: string, body: string) returns (s5: System, s6: System)
    requires ttl > 0
    requires s4 == System(KeyState(Some(FailedRecord(ttl, lock, hash, body)), map[], [], 0),
                          map[2 := Retry(ttl, lock, hash, body), 3 := Retry(ttl, lock, hash, body)], map[])
    ensures var steps := TwoRetries(ttl, lock, hash, body);
            && s5 == NextRace(s4, steps[4]) && s6 == NextRace(s5, steps[5])
            && Allowed(s4, steps[4], ttl, lock, d, 2, true) && Allowed(s5, steps[5], ttl, lock, d, 2, true)
    ensures var hold := Hold(0, lock, ttl);
            s6 == System(KeyState(Some(Processed(hash, ttl, lock, 0)), map[2 := hold, 3 := hold], [], 0), map[], map[])
  {
    RetryStarts(ttl, lock, hash, body);
    hide Retry, FailedRecord, Processed, Allowed, NextRace;
    s5, s6 := DecideBoth(s4, 2, 3, Retry(ttl, lock, hash, body), Processed(hash, ttl, lock, 0));
    DecideAllowed(s4, 2, ttl, lock, d, 2, true);
    DecideAllowed(s5, 3, ttl, lock, d, 2, true);
  }

  /** Two pending claims that read one record, and both decide to start over. */
  lemma DecideBoth(s4: System, a: nat, b: nat, r: Reading, target: Record) returns (s5: System, s6: System)
    requires a != b && s4.reading == map[a := r, b := r] && Verdict(r) == Ok(Started) && s4.key.record.Some?
    requires Restarted(s4.key.record, r) == Restarted(Some(target), r) == Some(target)
    ensures s5 == NextRace(s4, Decide(a)) && s6 == NextRace(s5, Decide(b))
    ensures |s4.reading| == 2 && |s5.reading| == 1 && s5.sweeping == s4.sweeping
    ensures var hold := Hold(r.now, r.now + r.lock, r.now + r.ttl);
            s6 == System(s4.key.(record := Some(target), active := s4.key.active[a := hold][b := hold]), map[], s4.sweeping)
  {
    hide Verdict, Restarted, NextRace;
    PendingPair(a, b, r);
    DecideStarts(s4, a);
    s5 := NextRace(s4, Decide(a));
    DecideStarts(s5, b);
    s6 := NextRace(s5, Decide(b));
  }

  lemma PendingPair(a: nat, b: nat, r: Reading)
    requires a != b
    ensures map[a := r, b := r] - {a} == map[b := r] && map[b := r] - {b} == map[]
    ensures |map[a := r, b := r]| == 2 && |map[b := r]| == 1
  {
    assert map[a := r, b := r].Keys == {a, b};
  }

  lemma RetryStarts(ttl: int, lock: int, hash: string, body: string)
    requires ttl > 0
    ensures var r := Retry(ttl, lock, hash, body);
            var target := Some(Processed(hash, ttl, lock, 0));
            && Verdict(r) == Ok(Started) && r.requestHash == hash && r.ttl == ttl && r.lock == lock && r.now == 0
            && Restarted(Some(FailedRecord(ttl, lock, hash, body)), r) == target && Restarted(target, r) == target
  {
    hide Flushed;
    FlushedIsTarget(FailedRecord(ttl, lock, hash, body), Processed(hash, ttl, lock, 0));
  }

  /** One claim at a time, and handlers that take no time, but a sweep that found the first record expired writes after
      the second claim has started over: the third claim takes the second one's record for an expired one. */
  function SweepOverClaim(ttl: int, lock: int, hash: string, body: string): seq<RaceStep> {
    [InsertOrRead(1, hash, ttl, lock, false, 0), FindExpired(0, ttl), InsertOrRead(2, hash, ttl, lock, false, ttl), Decide(2),
     WriteExpired(0), InsertOrRead(3, hash, ttl, lock, false, ttl), Decide(3),
     Other(Return(2, "OK", body, None, None, ttl)), Other(Return(3, "OK", body, None, None, ttl))]
  }

  lemma SweepOverClaimSucceedsTwice(ttl: int, lock: int, d: int, hash: string, body: string)
    requires ttl > 0 && lock > 0 && d >= 0
    ensures AllAllowed(Start(0), SweepOverClaim(ttl, lock, hash, body), ttl, lock, d, 1, false)
    ensures !OncePerLifetime(RunRace(Start(0), SweepOverClaim(ttl, lock, hash, body)).key)
  {
    hide NextRace, Allowed;
    var steps := SweepOverClaim(ttl, lock, hash, body);
    var s1, s2, s3, s4 := ClaimDuringSweep(ttl, lock, d, hash, body);
    var s5, s6, s7 := ClaimAfterSweep(s4, ttl, lock, d, hash, body);
    var s8, s9 := TwoReturns(s7, 2, 3, body, ttl, lock, d);
    Unroll(s8, s9, steps, 8, ttl, lock, d, 1, false);
    Unroll(s7, s8, steps, 7, ttl, lock, d, 1, false);
    Unroll(s6, s7, steps, 6, ttl, lock, d, 1, false);
    Unroll(s5, s6, steps, 5, ttl, lock, d, 1, false);
    Unroll(s4, s5, steps, 4, ttl, lock, d, 1, false);
    Unroll(s3, s4, steps, 3, ttl, lock, d, 1, false);
    Unroll(s2, s3, steps, 2, ttl, lock, d, 1, false);
    Unroll(s1, s2, steps, 1, ttl, lock, d, 1, false);
    Unroll(Start(0), s1, steps, 0, ttl, lock, d, 1, false);
    assert steps[9..] == [] && steps[0..] == steps;
  }

  /** The record that the sweep found, and the one that the second claim made of it. */
  function ClaimedOver(ttl: int, lock: int, hash: string): KeyState {
    KeyState(Some(Processed(hash, ttl, lock, ttl)), map[1 := Hold(0, lock, ttl), 2 := Hold(ttl, ttl + lock, ttl + ttl)], [], ttl)
  }

  /** An expired record, or one that was swept, is written over by a claim that read it. */
  lemma StartsOver(record: Record, ttl: int, lock: int, hash: string)
    requires record.expiresAt <= ttl || (record.status.Expired? && record.requestHash == hash)
    ensures var r := Reading(record, hash, ttl, lock, false, ttl);
            Verdict(r) == Ok(Started) && Restarted(Some(record), r) == Some(Processed(hash, ttl, lock, ttl))
  {
    hide Flushed;
    FlushedIsTarget(record, Processed(hash, ttl, lock, ttl));
  }

  lemma ClaimDuringSweep(ttl: int, lock: int, d: int, hash: string, body: string)
    returns (s1: System, s2: System, s3: System, s4: System)
    requires ttl > 0
    ensures var steps := SweepOverClaim(ttl, lock, hash, body);
            && s1 == NextRace(Start(0), steps[0]) && s2 == NextRace(s1, steps[1])
            && s3 == NextRace(s2, steps[2]) && s4 == NextRace(s3, steps[3])
            && Allowed(Start(0), steps[0], ttl, lock, d, 1, false) && Allowed(s1, steps[1], ttl, lock, d, 1, false)
            && Allowed(s2, steps[2], ttl, lock, d, 1, false) && Allowed(s3, steps[3], ttl, lock, d, 1, false)
    ensures s4 == System(ClaimedOver(ttl, lock, hash), map[], map[0 := Processed(hash, ttl, lock, 0)])
  {
    var steps := SweepOverClaim(ttl, lock, hash, body);
    var first := Processed(hash, ttl, lock, 0);
    s1 := System(KeyState(Some(first), map[1 := Hold(0, lock, ttl)], [], 0), map[], map[]);
    assert s1 == NextRace(Start(0), steps[0]);
    s2 := System(s1.key.(clock := ttl), map[], map[0 := first]);
    assert s2 == NextRace(s1, steps[1]);
    hide Verdict, Restarted, Processed, Expiring;
    s3, s4 := ReadAndStart(s2, 2, first, ttl, lock, hash);
    hide NextRace;
    DecideAllowed(s3, 2, ttl, lock, d, 1, false);
  }

  /** The record of the second claim as the late write of the sweep leaves it. */
  function SweptLive(ttl: int, lock: int, hash: string): Record {
    Processed(hash, ttl, lock, ttl).(status := Expired, lockedUntil := None)
  }

  lemma SweptWhileLive(s4: System, ttl: int, lock: int, d: int, hash: string, body: string) returns (s5: System)
    requires s4 == System(ClaimedOver(ttl, lock, hash), map[], map[0 := Processed(hash, ttl, lock, 0)])
    ensures s5 == NextRace(s4, SweepOverClaim(ttl, lock, hash, body)[4])
    ensures Allowed(s4, SweepOverClaim(ttl, lock, hash, body)[4], ttl, lock, d, 1, false)
    ensures s5 == System(s4.key.(record := Some(SweptLive(ttl, lock, hash))), map[], map[])
  {
    s5 := System(s4.key.(record := Some(SweptLive(ttl, lock, hash))), map[], map[]);
    assert map[0 := Processed(hash, ttl, lock, 0)] - {0} == map[];
  }

  lemma ClaimAfterSweep(s4: System, ttl: int, lock: int, d: int, hash: string, body: string)
    returns (s5: System, s6: System, s7: System)
    requires s4 == System(ClaimedOver(ttl, lock, hash), map[], map[0 := Processed(hash, ttl, lock, 0)])
    ensures var steps := SweepOverClaim(ttl, lock, hash, body);
            && s5 == NextRace(s4, steps[4]) && s6 == NextRace(s5, steps[5]) && s7 == NextRace(s6, steps[6])
            && Allowed(s4, steps[4], ttl, lock, d, 1, false) && Allowed(s5, steps[5], ttl, lock, d, 1, false)
            && Allowed(s6, steps[6], ttl, lock, d, 1, false)
    ensures s7 == System(ClaimedOver(ttl, lock, hash).(active := ClaimedOver(ttl, lock, hash).active[3 := Hold(ttl, ttl + lock, ttl + ttl)]),
                         map[], map[])
  {
    s5 := SweptWhileLive(s4, ttl, lock, d, hash, body);
    hide Verdict, Restarted, Processed, Expiring;
    s6, s7 := ReadAndStart(s5, 3, SweptLive(ttl, lock, hash), ttl, lock, hash);
    hide NextRace;
    DecideAllowed(s6, 3, ttl, lock, d, 1, false);
  }

  /** A claim at the clock's reading that starts over on the record it reads. */
  lemma ReadAndStart(s: System, run: nat, record: Record, ttl: int, lock: int, hash: string) returns (t: System,
                     u: System)
    requires s.key.record == Some(record) && s.reading == map[] && s.key.clock == ttl
    requires record.expiresAt <= ttl || (record.status.Expired? && record.requestHash == hash)
    ensures t == NextRace(s, InsertOrRead(run, hash, ttl, lock, false, ttl)) && u == NextRace(t, Decide(run))
    ensures |t.reading| == 1
    ensures u == s.(key := s.key.(record := Some(Processed(hash, ttl, lock, ttl)),
                                  active := s.key.active[run := Hold(ttl, ttl + lock, ttl + ttl)]))
  {
    var r := Reading(record, hash, ttl, lock, false, ttl);
    StartsOver(record, ttl, lock, hash);
    hide Verdict, Restarted, Processed;
    t := s.(reading := map[run := r]);
    assert t == NextRace(s, InsertOrRead(run, hash, ttl, lock, false, ttl));
    hide NextRace;
    DecideStarts(t, run);
    u := NextRace(t, Decide(run));
    assert map[run := r] - {run} == map[];
  }

  lemma Unroll(s: System, t: System, steps: seq<RaceStep>, n: nat, ttl: int, lock: int, d: int, k: nat,
               apart: bool)
    requires n < |steps| && t == NextRace(s, steps[n])
    ensures AllAllowed(s, steps[n..], ttl, lock, d, k, apart) <==>
            Allowed(s, steps[n], ttl, lock, d, k, apart) && AllAllowed(t, steps[n + 1..], ttl, lock, d, k, apart)
    ensures RunRace(s, steps[n..]) == RunRace(t, steps[n + 1..])
  {
    hide NextRace, Allowed;
    assert steps[n..][0] == steps[n] && steps[n..][1..] == steps[n + 1..];
  }

  lemma {:induction false} AllowedMonotone(s: System, steps: seq<RaceStep>, ttl: int, lock: int, d: int, k: nat,
                                           apart: bool,
                                           more: nat, stillApart: bool)
    requires k <= more && (stillApart ==> apart) && AllAllowed(s, steps, ttl, lock, d, k, apart)
    ensures AllAllowed(s, steps, ttl, lock, d, more, stillApart)
    decreases |steps|
  {
    hide NextRace;
    if steps != [] {
      AllowedMonotone(NextRace(s, steps[0]), steps[1..], ttl, lock, d, k, apart, more, stillApart);
    }
  }

  // ----- the exact condition -----

  /** However claims, handlers and sweeps interleave, with at most k claims in flight, and sweeps apart from claims if
      `apart`, one success per lifetime is recorded. */
  ghost predicate RacesOnce(ttl: int, lock: int, d: int, k: nat, apart: bool) {
    forall clock: int, steps: seq<RaceStep> | AllAllowed(Start(clock), steps, ttl, lock, d, k, apart) ::
      OncePerLifetime(RunRace(Start(clock), steps).key)
  }

  /** At-most-once holds over all interleavings exactly when handlers are faster than the lock and the lifetime, the
      claims of one key do not overlap, and no sweep overlaps a claim. */
  lemma RacesOnceIff(ttl: int, lock: int, d: int, k: nat, apart: bool)
    requires ttl > 0 && d >= 0 && k >= 1
    ensures RacesOnce(ttl, lock, d, k, apart) <==> d < Min(lock, ttl) && k == 1 && apart
  {
    if d >= Min(lock, ttl) {
      LateRacesSucceedTwice(ttl, lock, d, "h", "");
      AllowedMonotone(Start(0), LateRaces(ttl, lock, "h", ""), ttl, lock, d, 1, true, k, apart);
    } else if k > 1 {
      TwoRetriesSucceedTwice(ttl, lock, d, "h", "");
      AllowedMonotone(Start(0), TwoRetries(ttl, lock, "h", ""), ttl, lock, d, 2, true, k, apart);
    } else if !apart {
      SweepOverClaimSucceedsTwice(ttl, lock, d, "h", "");
    } else {
      forall clock: int, steps: seq<RaceStep> | AllAllowed(Start(clock), steps, ttl, lock, d, k, apart)
        ensures OncePerLifetime(RunRace(Start(clock), steps).key)
      {
        RunRaceInv(Start(clock), steps, ttl, lock, d);
      }
    }
  }

  // ----- diagnoses -----

  /** From now on a diagnosis tells what a claim would do. */
  ghost predicate Reliable(k: KeyState) {
    forall hash: string, ttl: int, lock: int, now: int, retryFailed: bool | k.clock <= now ::
      Predicted(Diagnose(k.record, Some(hash), now, retryFailed), LockOf(k.record), now)
      == Claim(k.record, hash, ttl, lock, now, retryFailed).1
  }

  predicate NothingSweptEarly(k: KeyState) {
    k.record.Some? && k.record.value.status.Expired? ==> k.record.value.expiresAt <= k.clock
  }

  lemma ReliableWhen(k: KeyState)
    requires NothingSweptEarly(k)
    ensures Reliable(k)
  {
    forall hash: string, ttl: int, lock: int, now: int, retryFailed: bool | k.clock <= now
      ensures Predicted(Diagnose(k.record, Some(hash), now, retryFailed), LockOf(k.record), now)
              == Claim(k.record, hash, ttl, lock, now, retryFailed).1
    {
      DiagnosePredictsClaimIff(k.record, hash, ttl, lock, now, retryFailed);
    }
  }

  /** Sweeps under way are about a record that is over; claims under way have seen it swept if it is. */
  predicate SweepInv(s: System) {
    && NothingSweptEarly(s.key)
    && (s.sweeping != map[] ==> s.key.record.Some? && s.key.record.value.expiresAt <= s.key.clock)
    && forall run | run in s.reading ::
         s.key.record.Some? && (s.key.record.value.status.Expired? ==> s.reading[run].snapshot.status.Expired?)
  }

  lemma NextSweepInv(s: System, step: RaceStep, ttl: int, lock: int, d: int, k: nat)
    requires SweepInv(s) && Allowed(s, step, ttl, lock, d, k, true)
    ensures SweepInv(NextRace(s, step))
  {
    hide Verdict;
  }

  lemma {:induction false} RunSweepInv(s: System, steps: seq<RaceStep>, ttl: int, lock: int, d: int, k: nat)
    requires SweepInv(s) && AllAllowed(s, steps, ttl, lock, d, k, true)
    ensures SweepInv(RunRace(s, steps))
    decreases |steps|
  {
    hide SweepInv, NextRace, Allowed;
    if steps != [] {
      NextSweepInv(s, steps[0], ttl, lock, d, k);
      RunSweepInv(NextRace(s, steps[0]), steps[1..], ttl, lock, d, k);
    }
  }

  ghost predicate AlwaysReliable(ttl: int, lock: int, d: int, k: nat, apart: bool) {
    forall clock: int, steps: seq<RaceStep> | AllAllowed(Start(clock), steps, ttl, lock, d, k, apart) ::
      Reliable(RunRace(Start(clock), steps).key)
  }

  /** However many claims overlap and however late handlers mark, diagnoses stay reliable under a clock that does not go
      back, exactly when no sweep overlaps a claim. */
  lemma DiagnosisIsReliableIff(ttl: int, lock: int, d: int, k: nat, apart: bool)
    requires ttl > 0 && k >= 1
    ensures AlwaysReliable(ttl, lock, d, k, apart) <==> apart
  {
    if apart {
      forall clock: int, steps: seq<RaceStep> | AllAllowed(Start(clock), steps, ttl, lock, d, k, apart)
        ensures Reliable(RunRace(Start(clock), steps).key)
      {
        RunSweepInv(Start(clock), steps, ttl, lock, d, k);
        ReliableWhen(RunRace(Start(clock), steps).key);
      }
    } else {
      LateSweepMisleads(ttl, lock, d);
      AllowedMonotone(Start(0), SweepOverClaim(ttl, lock, "h", "")[..5], ttl, lock, d, 1, false, k, apart);
    }
  }

  /** The late sweep leaves a live record that looks expired: a claim with another payload is announced and refused. */
  lemma LateSweepMisleads(ttl: int, lock: int, d: int)
    requires ttl > 0
    ensures var steps := SweepOverClaim(ttl, lock, "h", "")[..5];
            AllAllowed(Start(0), steps, ttl, lock, d, 1, false) && !Reliable(RunRace(Start(0), steps).key)
  {
    hide NextRace, Allowed;
    var all := SweepOverClaim(ttl, lock, "h", "");
    var steps := all[..5];
    var s1, s2, s3, s4 := ClaimDuringSweep(ttl, lock, d, "h", "");
    var s5 := SweptWhileLive(s4, ttl, lock, d, "h", "");
    assert forall i | 0 <= i < 5 :: steps[i] == all[i];
    Unroll(s4, s5, steps, 4, ttl, lock, d, 1, false);
    Unroll(s3, s4, steps, 3, ttl, lock, d, 1, false);
    Unroll(s2, s3, steps, 2, ttl, lock, d, 1, false);
    Unroll(s1, s2, steps, 1, ttl, lock, d, 1, false);
    Unroll(Start(0), s1, steps, 0, ttl, lock, d, 1, false);
    assert steps[5..] == [] && steps[0..] == steps;
    var claim := Claim(s5.key.record, "other", ttl, lock, ttl, false);
    assert claim.1 == Err(KeyConflict);
    assert Predicted(Diagnose(s5.key.record, Some("other"), ttl, false), LockOf(s5.key.record), ttl) == Ok(Started);
  }
}
