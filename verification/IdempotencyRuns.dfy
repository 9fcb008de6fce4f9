/** Concurrent guarded runs on one idempotency key: claims, handler outcomes, crashes and expiry sweeps in any
    order. The same protocol serves the mutation guard, the event handlers and their side effects. */
module IdempotencyRuns {
  import opened Common
  import opened Idempotency

  /** What a run hands to its success mark. */
  datatype Response = Response(code: string, body: string, taskId: Option<string>, outboxEventId: Option<string>)

  /** A success as it was recorded, and what the run had returned. */
  datatype Success = Success(record: Record, at: int, response: Response)

  /** What a run was given when it started: the lock and the expiry of its record. */
  datatype Hold = Hold(since: int, lockedUntil: int, expiresAt: int)

  /** `active` maps each run whose handler is executing to its hold. */
  datatype KeyState = KeyState(record: Option<Record>, active: map<nat, Hold>, successes: seq<Success>, clock: int)

  datatype Step =
    | Begin(run: nat, requestHash: string, ttl: int, lock: int, retryFailed: bool, now: int)
    | Return(run: nat, code: string, body: string, taskId: Option<string>, outboxEventId: Option<string>, now: int)
    | Raise(run: nat, code: string, body: string, now: int)
    | Crash(run: nat, now: int)
    | Sweep(now: int)

  function Init(clock: int): KeyState {
    KeyState(None, map[], [], clock)
  }

  function ClaimOf(s: KeyState, step: Step): (Option<Record>, Result<Outcome>)
    requires step.Begin?
  {
    Claim(s.record, step.requestHash, step.ttl, step.lock, step.now, step.retryFailed)
  }

  /** The marks carry no claim version: they write whatever record the key has. */
  function Next(s: KeyState, step: Step): KeyState {
    match step
    case Begin(run, hash, ttl, lock, retryFailed, now) =>
      var (record, outcome) := ClaimOf(s, step);
      KeyState(record, if outcome == Ok(Started) then s.active[run := Hold(now, now + lock, now + ttl)] else s.active, s.successes, now)
    case Return(run, code, body, taskId, outboxEventId, now) =>
      if run in s.active && s.record.Some? then
        var r := Succeed(s.record.value, code, body, taskId, outboxEventId);
        KeyState(Some(r), s.active - {run}, s.successes + [Success(r, now, Response(code, body, taskId, outboxEventId))], now)
      else s.(clock := now)
    case Raise(run, code, body, now) =>
      if run in s.active && s.record.Some? then
        KeyState(Some(Fail(s.record.value, code, body)), s.active - {run}, s.successes, now)
      else s.(clock := now)
    case Crash(run, now) => s.(active := s.active - {run}, clock := now)
    case Sweep(now) =>
      s.(record := if s.record.Some? then Some(Swept(s.record.value, now)) else None, clock := now)
  }

  /** The clock does not go back and a run id is used by one run at a time. */
  predicate Timed(s: KeyState, step: Step) {
    s.clock <= step.now && (step.Begin? ==> step.run !in s.active)
  }

  /** Neither the lock nor the record that the run was given is over at that time. */
  predicate Before(hold: Hold, now: int) {
    now < hold.lockedUntil && now < hold.expiresAt
  }

  /** Besides, an outcome is marked before the run's lock and its record are over. Runs that never mark one may stay
      active for as long as they like. */
  predicate Legal(s: KeyState, step: Step) {
    && Timed(s, step)
    && ((step.Return? || step.Raise?) && step.run in s.active ==> Before(s.active[step.run], step.now))
  }

  /** Every step moves the clock to its own reading. A run that ends, in whatever way, is not active any more, and no
      other run's hold changes; a crash leaves the record and the successes as they are. */
  lemma StepsKeepTime(s: KeyState, step: Step, other: nat)
    ensures var t := Next(s, step);
            && t.clock == step.now
            && (step.Crash? ==> t.record == s.record && t.successes == s.successes)
            && (step.Sweep? ==> t.active == s.active && t.successes == s.successes)
            && (step.Crash? || ((step.Return? || step.Raise?) && s.record.Some?) ==> step.run !in t.active)
            && (step.Sweep? || other != step.run ==>
                  (other in t.active <==> other in s.active) && (other in s.active ==> t.active[other] == s.active[other]))
  {
  }

  function Run(s: KeyState, steps: seq<Step>): KeyState
    decreases |steps|
  {
    if steps == [] then s else Run(Next(s, steps[0]), steps[1..])
  }

  predicate TimedRun(s: KeyState, steps: seq<Step>)
    decreases |steps|
  {
    steps != [] ==> Timed(s, steps[0]) && TimedRun(Next(s, steps[0]), steps[1..])
  }

  predicate LegalRun(s: KeyState, steps: seq<Step>)
    decreases |steps|
  {
    steps != [] ==> Legal(s, steps[0]) && LegalRun(Next(s, steps[0]), steps[1..])
  }

  // ----- records under any interleaving, with no bound on how long handlers take -----

  predicate Shape(s: KeyState) {
    s.record.Some? ==>
      && (s.record.value.status.Processing? <==> s.record.value.lockedUntil.Some?)
      && (s.record.value.status.Expired? ==> s.record.value.expiresAt <= s.clock)
  }

  lemma {:induction false} RunShape(s: KeyState, steps: seq<Step>)
    requires Shape(s) && TimedRun(s, steps)
    ensures Shape(Run(s, steps)) && Run(s, steps).clock >= s.clock
    decreases |steps|
  {
    if steps != [] {
      RunShape(Next(s, steps[0]), steps[1..]);
    }
  }

  /** Under a clock that does not go back, a diagnosis tells exactly what the claim would do, however many
      overlapping runs, late marks and sweeps came before. */
  lemma DiagnosisIsReliable(clock: int, steps: seq<Step>, claim: Step)
    requires TimedRun(Init(clock), steps) && claim.Begin?
    requires Run(Init(clock), steps).clock <= claim.now
    ensures var s := Run(Init(clock), steps);
            Predicted(Diagnose(s.record, Some(claim.requestHash), claim.now, claim.retryFailed), LockOf(s.record), claim.now)
            == ClaimOf(s, claim).1
  {
    RunShape(Init(clock), steps);
    var s := Run(Init(clock), steps);
    DiagnosePredictsClaimIff(s.record, claim.requestHash, claim.ttl, claim.lock, claim.now, claim.retryFailed);
  }

  // ----- runs that mark their outcome before their lock is over -----

  predicate Inside(s: KeyState, run: nat) {
    run in s.active && Before(s.active[run], s.clock)
  }

  /** A run whose lock is still ahead owns the record. */
  predicate InsideOwnsRecord(s: KeyState) {
    forall run | run in s.active && Inside(s, run) ::
      && s.record.Some?
      && s.record.value.status.Processing?
      && s.record.value.lockedUntil == Some(s.active[run].lockedUntil)
      && s.record.value.expiresAt == s.active[run].expiresAt
  }

  predicate AtMostOneInside(s: KeyState) {
    forall a, b | a in s.active && b in s.active && Inside(s, a) && Inside(s, b) :: a == b
  }

  /** A success whose lifetime is not over is still what the key records. */
  predicate SuccessStands(s: KeyState) {
    forall i | 0 <= i < |s.successes| ::
      s.successes[i].record.expiresAt <= s.clock || s.record == Some(s.successes[i].record)
  }

  predicate Records(r: Record, response: Response) {
    && r.responseCode == Some(response.code) && r.responseBody == Some(response.body)
    && r.taskId == response.taskId && r.outboxEventId == response.outboxEventId
  }

  /** What was returned is what is on record. */
  predicate ResponsesRecorded(s: KeyState) {
    forall i | 0 <= i < |s.successes| :: Records(s.successes[i].record, s.successes[i].response)
  }

  predicate LifetimesApart(s: KeyState) {
    && (forall i | 0 <= i < |s.successes| :: s.successes[i].at <= s.clock && s.successes[i].record.status.Succeeded?)
    && (forall i, j | 0 <= i < j < |s.successes| :: s.successes[i].record.expiresAt <= s.successes[j].at)
  }

  predicate Inv(s: KeyState) {
    Shape(s) && InsideOwnsRecord(s) && AtMostOneInside(s) && SuccessStands(s) && LifetimesApart(s) && ResponsesRecorded(s)
  }

  lemma BeginInv(s: KeyState, step: Step)
    requires Inv(s) && Legal(s, step) && step.Begin?
    ensures Inv(Next(s, step))
  {
    var outcome := ClaimOf(s, step).1;
    var t := Next(s, step);
    if outcome == Ok(Started) {
      forall run | run in s.active
        ensures !Before(s.active[run], step.now)
      {
        assert Inside(s, run) ==> s.record.Some?;
      }
      assert forall run | run in t.active && Inside(t, run) :: run == step.run;
    } else {
      assert t.record == s.record;
    }
  }

  /** An outcome that is marked in time is marked by the one owner of the record. */
  lemma MarkInv(s: KeyState, step: Step)
    requires Inv(s) && Legal(s, step) && (step.Return? || step.Raise?)
    ensures Inv(Next(s, step))
  {
    var t := Next(s, step);
    if step.run in s.active {
      assert Inside(s, step.run);
      forall i | 0 <= i < |s.successes|
        ensures s.successes[i].record.expiresAt <= s.clock
      {
        assert s.record != Some(s.successes[i].record);
      }
      var owner := step.run;
      assert forall run | run in s.active && Inside(s, run) :: run == owner;
      assert forall run | run in t.active :: run in s.active && (Inside(t, run) ==> Inside(s, run));
    }
  }

  lemma NextInv(s: KeyState, step: Step)
    requires Inv(s) && Legal(s, step)
    ensures Inv(Next(s, step))
  {
    hide ClaimOf;
    match step
    case Begin(_, _, _, _, _, _) => BeginInv(s, step);
    case Return(_, _, _, _, _, _) => MarkInv(s, step);
    case Raise(_, _, _, _) => MarkInv(s, step);
    case _ =>
  }

  lemma {:induction false} RunInv(s: KeyState, steps: seq<Step>)
    requires Inv(s) && LegalRun(s, steps)
    ensures Inv(Run(s, steps))
    decreases |steps|
  {
    if steps != [] {
      NextInv(s, steps[0]);
      RunInv(Next(s, steps[0]), steps[1..]);
    }
  }

  /** Of the handlers that execute inside their lock there is at most one at a time, and the key's record is its own. */
  lemma OneRunAtATime(clock: int, steps: seq<Step>)
    requires LegalRun(Init(clock), steps)
    ensures var s := Run(Init(clock), steps);
            && (forall a, b | a in s.active && b in s.active && Inside(s, a) && Inside(s, b) :: a == b)
            && (forall run | run in s.active && Inside(s, run) ::
                  && s.record.Some? && s.record.value.status.Processing?
                  && s.record.value.lockedUntil == Some(s.active[run].lockedUntil)
                  && s.record.value.expiresAt == s.active[run].expiresAt)
  {
    RunInv(Init(clock), steps);
  }

  predicate OncePerLifetime(s: KeyState) {
    forall i, j | 0 <= i < j < |s.successes| :: s.successes[i].record.expiresAt <= s.successes[j].at
  }

  /** At most one run records success per record lifetime: a later success comes after the expiry of every earlier one. */
  lemma OneSuccessPerLifetime(clock: int, steps: seq<Step>)
    requires LegalRun(Init(clock), steps)
    ensures OncePerLifetime(Run(Init(clock), steps))
  {
    RunInv(Init(clock), steps);
  }

  /** Until a recorded success expires, every claim with its payload hash replays, without starting a handler, exactly
      what the run had returned, and a claim with another hash is refused. */
  lemma SuccessIsReplayed(clock: int, steps: seq<Step>, i: nat, claim: Step)
    requires LegalRun(Init(clock), steps) && claim.Begin?
    requires var s := Run(Init(clock), steps);
             Timed(s, claim) && i < |s.successes| && claim.now < s.successes[i].record.expiresAt
    ensures var s := Run(Init(clock), steps);
            var recorded := s.successes[i].record;
            var t := Next(s, claim);
            && t.record == Some(recorded)
            && recorded.responseCode == Some(s.successes[i].response.code)
            && recorded.responseBody == Some(s.successes[i].response.body)
            && recorded.taskId == s.successes[i].response.taskId
            && recorded.outboxEventId == s.successes[i].response.outboxEventId
            && t.active == s.active
            && ClaimOf(s, claim).1 == if claim.requestHash == recorded.requestHash then Ok(Replayed) else Err(KeyConflict)
  {
    RunInv(Init(clock), steps);
  }

  /** Every return of an active run is recorded as a success with exactly what it returned. */
  lemma ReturnsAreRecorded(clock: int, steps: seq<Step>, step: Step)
    requires LegalRun(Init(clock), steps) && step.Return?
    requires var s := Run(Init(clock), steps); Legal(s, step) && step.run in s.active
    ensures var s := Run(Init(clock), steps);
            var t := Next(s, step);
            && t.record.Some?
            && t.successes == s.successes + [Success(t.record.value, step.now, Response(step.code, step.body, step.taskId, step.outboxEventId))]
            && t.record.value.status == Succeeded && t.record.value.lockedUntil == None
            && t.record.value.responseCode == Some(step.code) && t.record.value.responseBody == Some(step.body)
            && t.record.value.taskId == step.taskId && t.record.value.outboxEventId == step.outboxEventId
            && t.record.value.expiresAt == s.active[step.run].expiresAt
  {
    RunInv(Init(clock), steps);
    assert Inside(Run(Init(clock), steps), step.run);
  }

  /** A raised error is recorded with its name and body, and until the record expires a claim of the same payload starts
      over only if it asks to retry failures. */
  lemma FailureIsKept(clock: int, steps: seq<Step>, step: Step, claim: Step)
    requires LegalRun(Init(clock), steps) && step.Raise? && claim.Begin?
    requires var s := Run(Init(clock), steps);
             && Legal(s, step) && step.run in s.active
             && Timed(Next(s, step), claim) && claim.now < s.active[step.run].expiresAt
    ensures var s := Run(Init(clock), steps);
            var t := Next(s, step);
            && t.record.Some? && t.successes == s.successes
            && t.record.value.status == Failed && t.record.value.lockedUntil == None
            && t.record.value.responseCode == Some(step.code) && t.record.value.responseBody == Some(step.body)
            && t.record.value.expiresAt == s.active[step.run].expiresAt
            && ClaimOf(t, claim).1 == if claim.requestHash != t.record.value.requestHash then Err(KeyConflict)
                                      else if claim.retryFailed then Ok(Started)
                                      else Err(Conflict)
  {
    RunInv(Init(clock), steps);
    assert Inside(Run(Init(clock), steps), step.run);
  }

  // ----- how long a handler may take -----

  /** Every claim asks for the same lock and lifetime, and an outcome is marked at most d after its claim. */
  predicate Prompt(s: KeyState, step: Step, ttl: int, lock: int, d: int) {
    && Timed(s, step)
    && (step.Begin? ==> step.ttl == ttl && step.lock == lock)
    && ((step.Return? || step.Raise?) && step.run in s.active ==> step.now <= s.active[step.run].since + d)
  }

  predicate PromptRun(s: KeyState, steps: seq<Step>, ttl: int, lock: int, d: int)
    decreases |steps|
  {
    steps != [] ==> Prompt(s, steps[0], ttl, lock, d) && PromptRun(Next(s, steps[0]), steps[1..], ttl, lock, d)
  }

  predicate HoldsAre(s: KeyState, ttl: int, lock: int) {
    forall run | run in s.active ::
      s.active[run].lockedUntil == s.active[run].since + lock && s.active[run].expiresAt == s.active[run].since + ttl
  }

  lemma {:induction false} PromptIsLegal(s: KeyState, steps: seq<Step>, ttl: int, lock: int, d: int)
    requires HoldsAre(s, ttl, lock) && PromptRun(s, steps, ttl, lock, d) && d < Min(lock, ttl)
    ensures LegalRun(s, steps)
    decreases |steps|
  {
    hide ClaimOf;
    if steps != [] {
      PromptIsLegal(Next(s, steps[0]), steps[1..], ttl, lock, d);
    }
  }

  /** Two runs, the second one claiming when the first one's lock or record is over, both returning then. */
  function LateRuns(ttl: int, lock: int, hash: string, body: string): seq<Step> {
    var late := Max(Min(lock, ttl), 0);
    [Begin(1, hash, ttl, lock, false, 0), Begin(2, hash, ttl, lock, false, late),
     Return(1, "OK", body, None, None, late), Return(2, "OK", body, None, None, late)]
  }

  /** Marks carry no claim version: a handler that may take as long as its lock lets two runs record success within
      one lifetime. */
  lemma LateHandlerSucceedsTwice(ttl: int, lock: int, d: int, hash: string, body: string)
    requires ttl > 0 && d >= 0 && d >= Min(lock, ttl)
    ensures var steps := LateRuns(ttl, lock, hash, body);
            && PromptRun(Init(0), steps, ttl, lock, d)
            && |Run(Init(0), steps).successes| == 2
            && !OncePerLifetime(Run(Init(0), steps))
  {
    var steps := LateRuns(ttl, lock, hash, body);
    var late := Max(Min(lock, ttl), 0);
    var s1 := Next(Init(0), steps[0]);
    var s2 := Next(s1, steps[1]);
    var s3 := Next(s2, steps[2]);
    var s4 := Next(s3, steps[3]);
    var r1, r2, r3 := steps[1..], steps[2..], steps[3..];
    assert r1[0] == steps[1] && r1[1..] == r2 && r2[0] == steps[2] && r2[1..] == r3 && r3[0] == steps[3] && r3[1..] == [];
    assert s1.active == map[1 := Hold(0, lock, ttl)] && s1.record == Some(Processed(hash, ttl, lock, 0));
    assert s2.active == map[1 := Hold(0, lock, ttl), 2 := Hold(late, late + lock, late + ttl)];
    assert s2.record == Some(Processed(hash, ttl, lock, late));
    assert |s3.successes| == 1 && s3.successes[0].record.expiresAt == late + ttl && s3.record.Some? && 2 in s3.active;
    assert |s4.successes| == 2 && s4.successes[0] == s3.successes[0] && s4.successes[1].at == late;
    assert Run(Init(0), steps) == Run(s1, r1) == Run(s2, r2);
    assert Run(s2, r2) == Run(s3, r3) == Run(s4, []) == s4;
    assert PromptRun(s4, [], ttl, lock, d);
    assert PromptRun(s3, r3, ttl, lock, d);
    assert PromptRun(s2, r2, ttl, lock, d);
    assert PromptRun(s1, r1, ttl, lock, d);
  }

  /** However the runs on the key interleave, at most one success per lifetime is recorded. */
  ghost predicate AlwaysOnce(ttl: int, lock: int, d: int) {
    forall clock: int, steps: seq<Step> ::
      PromptRun(Init(clock), steps, ttl, lock, d) ==> OncePerLifetime(Run(Init(clock), steps))
  }

  /** With handlers that take at most d, at-most-once holds over all runs exactly when d is shorter than the lock and
      than the record's lifetime. */
  lemma AtMostOnceIff(ttl: int, lock: int, d: int)
    requires ttl > 0 && d >= 0
    ensures AlwaysOnce(ttl, lock, d) <==> d < Min(lock, ttl)
  {
    if d < Min(lock, ttl) {
      forall clock: int, steps: seq<Step> | PromptRun(Init(clock), steps, ttl, lock, d)
        ensures OncePerLifetime(Run(Init(clock), steps))
      {
        PromptIsLegal(Init(clock), steps, ttl, lock, d);
        OneSuccessPerLifetime(clock, steps);
      }
    } else {
      LateHandlerSucceedsTwice(ttl, lock, d, "h", "");
      assert PromptRun(Init(0), LateRuns(ttl, lock, "h", ""), ttl, lock, d);
    }
  }

  // ----- a clock that goes back -----

  /** The one case in which a diagnosis misleads does come up: a sweep, and then a claim at an earlier clock reading. */
  lemma SweptEarlyIsReached(ttl: int, lock: int, swept: int, now: int, hash: string, other: string)
    requires 0 <= now < ttl <= swept && hash != other
    ensures var steps := [Begin(1, hash, ttl, lock, false, 0), Sweep(swept)];
            var s := Run(Init(0), steps);
            var claim := Begin(2, other, ttl, lock, true, now);
            && TimedRun(Init(0), steps) && now < s.clock
            && SweptEarly(s.record, now)
            && Diagnose(s.record, Some(other), now, true).ExpiredReusable?
            && ClaimOf(s, claim).1 == Err(KeyConflict)
  {
    var steps := [Begin(1, hash, ttl, lock, false, 0), Sweep(swept)];
    var s1 := Next(Init(0), steps[0]);
    var rest := steps[1..];
    assert rest[0] == steps[1] && rest[1..] == [];
    assert s1.record == Some(Processed(hash, ttl, lock, 0));
    assert Run(s1, rest) == Run(Next(s1, rest[0]), []);
    assert Run(Init(0), steps) == Run(s1, rest);
  }
}
