/** The outbox, the registry and the idempotency store together: dispatch attempts on one event by any number of
    dispatchers, interleaved step by step, with crashes, replays and expiry sweeps in between. */
module EventRuns {
  import opened Common
  import opened Idempotency
  import Events
  import Outbox
  import OutboxRuns

  datatype Phase =
    | Ready
    | Calling(deadline: int)
    | Finished
    | Aborted

  /** One attempt: the handlers it has passed, what it is doing, and which handlers it called. */
  datatype Attempt = Attempt(passed: nat, phase: Phase, called: seq<nat>)

  /** `records[i]` is the idempotency record of handler i, `hashes[i]` its request hash and `returned[i]` how often
      the handler has returned normally. An attempt is named after the holder of its claimed event. `claimable` says
      whether the event's idempotency scopes have no blank part, without which every claim raises. */
  datatype World = World(
    outbox: OutboxRuns.System,
    claimable: bool,
    hashes: seq<string>,
    records: seq<Option<Record>>,
    returned: seq<nat>,
    attempts: map<nat, Attempt>,
    clock: int)

  datatype Step =
    | ClaimEvent(holder: nat, dispatcherId: string, lockUntil: int, now: int)
    | StartHandler(holder: nat, now: int)
    | HandlerReturns(holder: nat, body: string, eventId: string, now: int)
    | HandlerRaises(holder: nat, name: string, message: string, now: int)
    | Crash(holder: nat, now: int)
    | MarkPublished(holder: nat, dispatcherId: string, now: int)
    | MarkFailed(holder: nat, dispatcherId: string, error: Outbox.HandlerError, retryDelay: int, now: int)
    | ReplayDeadLetter(now: int)
    | Sweep(now: int)

  function Init(maxAttempts: int, claimable: bool, hashes: seq<string>, clock: int): World {
    World(OutboxRuns.Init(maxAttempts), claimable, hashes, seq(|hashes|, i => None), seq(|hashes|, i => 0), map[], clock)
  }

  predicate WellFormed(w: World) {
    && |w.records| == |w.hashes| == |w.returned|
    && forall h | h in w.attempts ::
         && w.attempts[h].passed <= |w.hashes|
         && (w.attempts[h].phase.Ready? || w.attempts[h].phase.Calling? ==> w.attempts[h].passed < |w.hashes|)
  }

  /** The attempt goes on to the next handler, or is done. An event without handlers never gets here. */
  function Advance(a: Attempt, handlers: nat): Attempt {
    a.(passed := a.passed + 1, phase := if a.passed + 1 == handlers then Finished else Ready)
  }

  function SweptAll(records: seq<Option<Record>>, now: int): seq<Option<Record>> {
    seq(|records|, i requires 0 <= i < |records| =>
      if records[i].Some? then Some(Swept(records[i].value, now)) else None)
  }

  /** A dispatcher claims the event; an event with no registered handler is an error of the attempt. */
  function Begun(w: World, h: nat, d: string, lockUntil: int, now: int): World {
    if Outbox.Eligible(w.outbox.row, now) && h !in w.attempts then
      w.(outbox := OutboxRuns.Next(w.outbox, OutboxRuns.Claim(h, d, lockUntil, now)),
         attempts := w.attempts[h := Attempt(0, if w.hashes == [] then Aborted else Ready, [])],
         clock := now)
    else w.(clock := now)
  }

  /** An attempt claims the record of its next handler. */
  function HandlerStarted(w: World, h: nat, now: int): World
    requires WellFormed(w)
  {
    if h !in w.attempts || !w.attempts[h].phase.Ready? then w.(clock := now)
    else
      var a := w.attempts[h];
      var i := a.passed;
      if !w.claimable then w.(attempts := w.attempts[h := a.(phase := Aborted)], clock := now)
      else
        var (record, outcome) := Claim(w.records[i], w.hashes[i], Events.CLAIM_TTL, Events.CLAIM_LOCK, now, true);
        var b := if outcome.Err? then a.(phase := Aborted)
                 else if outcome.value.Replayed? then Advance(a, |w.hashes|)
                 else a.(phase := Calling(now + Events.CLAIM_LOCK), called := a.called + [i]);
        w.(records := w.records[i := record], attempts := w.attempts[h := b], clock := now)
  }

  function HandlerReturned(w: World, h: nat, body: string, eventId: string, now: int): World
    requires WellFormed(w)
  {
    if h in w.attempts && w.attempts[h].phase.Calling? && w.records[w.attempts[h].passed].Some? then
      var a := w.attempts[h];
      var i := a.passed;
      w.(records := w.records[i := Some(Succeed(w.records[i].value, "OK", body, None, Some(eventId)))],
         returned := w.returned[i := w.returned[i] + 1],
         attempts := w.attempts[h := Advance(a, |w.hashes|)],
         clock := now)
    else w.(clock := now)
  }

  function HandlerRaised(w: World, h: nat, name: string, message: string, now: int): World
    requires WellFormed(w)
  {
    if h in w.attempts && w.attempts[h].phase.Calling? && w.records[w.attempts[h].passed].Some? then
      var a := w.attempts[h];
      var i := a.passed;
      w.(records := w.records[i := Some(Fail(w.records[i].value, name, ErrorBody(message)))],
         attempts := w.attempts[h := a.(phase := Aborted)],
         clock := now)
    else w.(clock := now)
  }

  function Next(w: World, step: Step): World
    requires WellFormed(w)
  {
    match step
    case ClaimEvent(h, d, lockUntil, now) => Begun(w, h, d, lockUntil, now)
    case StartHandler(h, now) => HandlerStarted(w, h, now)
    case HandlerReturns(h, body, eventId, now) => HandlerReturned(w, h, body, eventId, now)
    case HandlerRaises(h, name, message, now) => HandlerRaised(w, h, name, message, now)
    case Crash(h, now) => w.(attempts := w.attempts - {h}, clock := now)
    case MarkPublished(h, d, now) =>
      if h in w.attempts && w.attempts[h].phase.Finished? then
        w.(outbox := OutboxRuns.Next(w.outbox, OutboxRuns.Publish(h, d, now)), attempts := w.attempts - {h}, clock := now)
      else w.(clock := now)
    case MarkFailed(h, d, error, retryDelay, now) =>
      if h in w.attempts && w.attempts[h].phase.Aborted? then
        w.(outbox := OutboxRuns.Next(w.outbox, OutboxRuns.Fail(h, d, error, retryDelay, now)),
           attempts := w.attempts - {h}, clock := now)
      else w.(clock := now)
    case ReplayDeadLetter(now) => w.(outbox := OutboxRuns.Next(w.outbox, OutboxRuns.Replay), clock := now)
    case Sweep(now) => w.(records := SweptAll(w.records, now), clock := now)
  }

  /** The clock does not go back, every call ends inside its lock, and everything happens inside the records'
      lifetime. Outbox leases may run out at any time. */
  predicate Timely(w: World, now: int) {
    && WellFormed(w)
    && w.clock <= now
    && (forall h | h in w.attempts && w.attempts[h].phase.Calling? :: now < w.attempts[h].phase.deadline)
    && (forall i | 0 <= i < |w.records| && w.records[i].Some? :: now < w.records[i].value.expiresAt)
  }

  predicate Legal(w: World, step: Step) {
    Timely(w, step.now)
  }

  predicate LegalRun(w: World, steps: seq<Step>)
    decreases |steps|
  {
    steps != [] ==> Legal(w, steps[0]) && WellFormed(Next(w, steps[0])) && LegalRun(Next(w, steps[0]), steps[1..])
  }

  function Run(w: World, steps: seq<Step>): World
    requires LegalRun(w, steps)
    decreases |steps|
  {
    if steps == [] then w else Run(Next(w, steps[0]), steps[1..])
  }

  /** The outbox row moves by the dispatcher's own steps only: a claim for an attempt that is not under way, a published
      mark for a finished one, a failed mark for an aborted one, and replays. Every step moves the clock to its reading. */
  lemma OutboxPart(w: World, step: Step)
    requires WellFormed(w)
    ensures Next(w, step).clock == step.now
    ensures Next(w, step).outbox ==
            match step
            case ClaimEvent(h, d, lockUntil, now) =>
              if h in w.attempts then w.outbox else OutboxRuns.Next(w.outbox, OutboxRuns.Claim(h, d, lockUntil, now))
            case MarkPublished(h, d, now) =>
              if h in w.attempts && w.attempts[h].phase == Finished then OutboxRuns.Next(w.outbox, OutboxRuns.Publish(h, d, now))
              else w.outbox
            case MarkFailed(h, d, error, retryDelay, now) =>
              if h in w.attempts && w.attempts[h].phase == Aborted
              then OutboxRuns.Next(w.outbox, OutboxRuns.Fail(h, d, error, retryDelay, now)) else w.outbox
            case ReplayDeadLetter(_) => OutboxRuns.Next(w.outbox, OutboxRuns.Replay)
            case _ => w.outbox
  {
  }

  /** An attempt begins with a claim that takes effect, and is over with its mark or with a crash; nobody else's attempt
      changes. */
  lemma AttemptPart(w: World, step: Step, other: nat)
    requires WellFormed(w)
    ensures var t := Next(w, step);
            var own := !step.ReplayDeadLetter? && !step.Sweep?;
            && (!own || other != step.holder ==>
                  (other in t.attempts <==> other in w.attempts) && (other in w.attempts ==> t.attempts[other] == w.attempts[other]))
            && (step.Crash? ==> step.holder !in t.attempts)
            && (step.MarkPublished? || step.MarkFailed? ==>
                  (step.holder in t.attempts <==>
                   step.holder in w.attempts && w.attempts[step.holder].phase != if step.MarkPublished? then Finished else Aborted))
            && (step.ClaimEvent? && step.holder !in w.attempts ==>
                  (step.holder in t.attempts <==> t.outbox.row != w.outbox.row)
                  && (step.holder in t.attempts ==>
                        t.attempts[step.holder] == Attempt(0, if w.hashes == [] then Aborted else Ready, [])))
  {
    if step.ClaimEvent? {
      OutboxRuns.ClaimTakesEffectIff(w.outbox, step.holder, step.dispatcherId, step.lockUntil, step.now);
    }
  }

  /** A sweep expires exactly the records past their lifetime; but for sweeps, a step changes at most the record of the
      handler that its attempt has come to, and only a return counts one. */
  lemma RecordPart(w: World, step: Step, i: nat)
    requires WellFormed(w) && i < |w.records|
    ensures var t := Next(w, step);
            var at := (step.StartHandler? || step.HandlerReturns? || step.HandlerRaises?)
                      && step.holder in w.attempts && w.attempts[step.holder].passed == i;
            && |t.records| == |w.records|
            && (step.Sweep? ==>
                  t.records[i] == if w.records[i].Some? && w.records[i].value.status != Expired && w.records[i].value.expiresAt <= step.now
                                  then Some(w.records[i].value.(status := Expired, lockedUntil := None)) else w.records[i])
            && (!step.Sweep? && !at ==> t.records[i] == w.records[i])
            && (t.returned[i] == w.returned[i] + (if step.HandlerReturns? && at && w.attempts[step.holder].phase.Calling?
                                                     && w.records[i].Some? then 1 else 0))
  {
  }

  /** A run takes its steps one after the other. */
  lemma {:induction false} RunTakesEachStep(w: World, steps: seq<Step>, step: Step)
    requires LegalRun(w, steps + [step])
    ensures LegalRun(w, steps) && Run(w, []) == w
    ensures var s := Run(w, steps); WellFormed(s) && Legal(s, step) && Run(w, steps + [step]) == Next(s, step)
    decreases |steps|
  {
    hide Next;
    if steps == [] {
      assert ([] + [step])[0] == step && ([] + [step])[1..] == [];
    } else {
      assert (steps + [step])[0] == steps[0] && (steps + [step])[1..] == steps[1..] + [step];
      RunTakesEachStep(Next(w, steps[0]), steps[1..], step);
    }
  }

  // ----- the invariant -----

  predicate Done(records: seq<Option<Record>>, i: int) {
    0 <= i < |records| && records[i].Some? && records[i].value.status.Succeeded?
  }

  /** A handler has returned once exactly when its success is on record. */
  predicate RecordSound(record: Option<Record>, hash: string, returned: nat) {
    && returned == (if record.Some? && record.value.status.Succeeded? then 1 else 0)
    && (record.Some? ==>
          && record.value.requestHash == hash
          && (record.value.status.Processing? ==> record.value.lockedUntil.Some?))
  }

  predicate RecordsSound(w: World)
    requires WellFormed(w)
  {
    forall i | 0 <= i < |w.records| :: RecordSound(w.records[i], w.hashes[i], w.returned[i])
  }

  predicate CallingOwns(w: World, h: nat)
    requires WellFormed(w) && h in w.attempts
  {
    w.attempts[h].phase.Calling? ==>
      var r := w.records[w.attempts[h].passed];
      r.Some? && r.value.status.Processing? && r.value.lockedUntil == Some(w.attempts[h].phase.deadline)
  }

  predicate CallsOrdered(a: Attempt) {
    && Increasing(a.called)
    && (forall i | i in a.called :: i <= a.passed)
    && (a.phase.Ready? || a.phase.Finished? ==> forall i | i in a.called :: i < a.passed)
  }

  predicate AttemptsSound(w: World)
    requires WellFormed(w)
  {
    && (forall h | h in w.attempts ::
          && CallingOwns(w, h)
          && CallsOrdered(w.attempts[h])
          && (w.attempts[h].phase.Finished? ==> w.attempts[h].passed == |w.hashes| > 0))
    && (forall h, i | h in w.attempts && 0 <= i < w.attempts[h].passed :: Done(w.records, i))
  }

  predicate CallersApart(w: World) {
    forall g, h | g in w.attempts && h in w.attempts && w.attempts[g].phase.Calling? && w.attempts[h].phase.Calling? ::
      w.attempts[g].passed == w.attempts[h].passed ==> g == h
  }

  predicate PublishedMeansDone(w: World) {
    w.outbox.row.status.Published? ==> w.hashes != [] && forall i | 0 <= i < |w.hashes| :: Done(w.records, i)
  }

  predicate Inv(w: World) {
    && WellFormed(w)
    && RecordsSound(w)
    && AttemptsSound(w)
    && CallersApart(w)
    && PublishedMeansDone(w)
  }

  /** Only a completed dispatch publishes the row. */
  lemma OnlyPublishPublishes(s: OutboxRuns.System, step: OutboxRuns.Step)
    ensures OutboxRuns.Next(s, step).row.status.Published? ==> s.row.status.Published? || step.Publish?
  {
  }

  /** A new attempt that has not called anything, beside the attempts there were. */
  lemma NewAttemptInv(w: World, t: World, h: nat, b: Attempt)
    requires Inv(w) && WellFormed(t) && PublishedMeansDone(t)
    requires t.records == w.records && t.hashes == w.hashes && t.returned == w.returned
    requires t.attempts == w.attempts[h := b] && h !in w.attempts
    requires b.passed == 0 && b.called == [] && (b.phase.Ready? || b.phase.Aborted?)
    ensures Inv(t)
  {
    hide RecordSound, Done, PublishedMeansDone;
    forall g | g in t.attempts
      ensures CallingOwns(t, g) && CallsOrdered(t.attempts[g])
    {
      assert g in w.attempts ==> CallingOwns(w, g) && CallsOrdered(w.attempts[g]);
    }
  }

  lemma ClaimEventInv(w: World, step: Step)
    requires Inv(w) && Legal(w, step) && step.ClaimEvent?
    ensures Inv(Next(w, step))
  {
    hide OutboxRuns.Next, HandlerStarted, HandlerReturned, HandlerRaised, SweptAll, RecordsSound, AttemptsSound,
         CallersApart, Done;
    OnlyPublishPublishes(w.outbox, OutboxRuns.Claim(step.holder, step.dispatcherId, step.lockUntil, step.now));
    var t := Next(w, step);
    if t.attempts == w.attempts {
      FewerAttemptsInv(w, t);
    } else {
      NewAttemptInv(w, t, step.holder, t.attempts[step.holder]);
    }
  }

  /** A step of attempt h that touches only the record of the handler it is at. */
  predicate LocalStep(w: World, t: World, h: nat, i: nat, r: Option<Record>, n: nat, b: Attempt) {
    && WellFormed(w) && WellFormed(t)
    && h in w.attempts && i == w.attempts[h].passed < |w.hashes|
    && t.hashes == w.hashes && t.outbox == w.outbox
    && t.records == w.records[i := r]
    && t.returned == w.returned[i := n]
    && t.attempts == w.attempts[h := b]
    && RecordSound(r, w.hashes[i], n)
    && (Done(w.records, i) ==> r == w.records[i])
    && CallsOrdered(b)
    && (b.phase.Calling? ==>
          r.Some? && r.value.status.Processing? && r.value.lockedUntil == Some(b.phase.deadline))
    && (b.passed == i || (b.passed == i + 1 && r.Some? && r.value.status.Succeeded?))
    && (b.phase.Calling? ==> b.passed == i)
    && (b.phase.Finished? ==> b.passed == |w.hashes|)
    && (forall g | g in w.attempts && g != h :: !(w.attempts[g].phase.Calling? && w.attempts[g].passed == i) || r == w.records[i])
    && (b.phase.Calling? ==> forall g | g in w.attempts && g != h :: !(w.attempts[g].phase.Calling? && w.attempts[g].passed == i))
  }

  lemma LocalDone(w: World, t: World, h: nat, i: nat, r: Option<Record>, n: nat, b: Attempt)
    requires Inv(w) && LocalStep(w, t, h, i, r, n, b)
    ensures forall j :: Done(w.records, j) ==> Done(t.records, j)
    ensures RecordsSound(t) && PublishedMeansDone(t) && CallersApart(t)
  {
    forall j | Done(w.records, j)
      ensures Done(t.records, j)
    {
    }
  }

  lemma LocalAttempts(w: World, t: World, h: nat, i: nat, r: Option<Record>, n: nat, b: Attempt)
    requires Inv(w) && LocalStep(w, t, h, i, r, n, b)
    ensures AttemptsSound(t)
  {
    LocalDone(w, t, h, i, r, n, b);
    forall g | g in t.attempts
      ensures CallingOwns(t, g) && CallsOrdered(t.attempts[g])
    {
      if g != h {
        assert CallingOwns(w, g) && CallsOrdered(w.attempts[g]);
      }
    }
    forall g, j | g in t.attempts && 0 <= j < t.attempts[g].passed
      ensures Done(t.records, j)
    {
      if g == h && j == i {
        assert Done(t.records, i);
      } else {
        assert Done(w.records, j);
      }
    }
  }

  lemma LocalInv(w: World, t: World, h: nat, i: nat, r: Option<Record>, n: nat, b: Attempt)
    requires Inv(w) && LocalStep(w, t, h, i, r, n, b)
    ensures Inv(t)
  {
    LocalDone(w, t, h, i, r, n, b);
    LocalAttempts(w, t, h, i, r, n, b);
  }

  /** What the invariant says of one attempt and the record it is at. */
  lemma InvAt(w: World, h: nat)
    requires Inv(w) && h in w.attempts
    ensures CallingOwns(w, h) && CallsOrdered(w.attempts[h])
    ensures var i := w.attempts[h].passed; i < |w.hashes| ==> RecordSound(w.records[i], w.hashes[i], w.returned[i])
  {
  }

  lemma StartHandlerInv(w: World, step: Step)
    requires Inv(w) && Legal(w, step) && step.StartHandler?
    ensures Inv(Next(w, step))
  {
    hide OutboxRuns.Next, Begun, HandlerReturned, HandlerRaised, SweptAll, RecordsSound, AttemptsSound,
         CallersApart;
    if step.holder in w.attempts && w.attempts[step.holder].phase.Ready? {
      var a := w.attempts[step.holder];
      var i := a.passed;
      var t := Next(w, step);
      InvAt(w, step.holder);
      Events.IncreasingAppend(a.called, i);
      forall g | g in w.attempts && w.attempts[g].phase.Calling? && w.attempts[g].passed == i
        ensures t.records[i] == w.records[i] && !t.attempts[step.holder].phase.Calling?
      {
        InvAt(w, g);
      }
      LocalInv(w, t, step.holder, i, t.records[i], w.returned[i], t.attempts[step.holder]);
    } else {
      FewerAttemptsInv(w, Next(w, step));
    }
  }

  lemma HandlerEndsInv(w: World, step: Step)
    requires Inv(w) && Legal(w, step) && (step.HandlerReturns? || step.HandlerRaises?)
    ensures Inv(Next(w, step))
  {
    hide OutboxRuns.Next, Begun, HandlerStarted, SweptAll, Claim, RecordsSound, AttemptsSound;
    if step.holder in w.attempts && w.attempts[step.holder].phase.Calling? {
      var i := w.attempts[step.holder].passed;
      var t := Next(w, step);
      InvAt(w, step.holder);
      LocalInv(w, t, step.holder, i, t.records[i], t.returned[i], t.attempts[step.holder]);
    } else {
      FewerAttemptsInv(w, Next(w, step));
    }
  }

  /** A sweep inside the records' lifetime finds nothing. */
  lemma SweepFindsNothing(w: World, step: Step)
    requires Legal(w, step) && step.Sweep?
    ensures Next(w, step) == w.(clock := step.now)
  {
    forall i | 0 <= i < |w.records|
      ensures SweptAll(w.records, step.now)[i] == w.records[i]
    {
    }
  }

  /** Dropping attempts and moving the outbox row. */
  lemma FewerAttemptsInv(w: World, t: World)
    requires Inv(w) && t.records == w.records && t.hashes == w.hashes && t.returned == w.returned
    requires forall h | h in t.attempts :: h in w.attempts && t.attempts[h] == w.attempts[h]
    requires PublishedMeansDone(t)
    ensures Inv(t)
  {
    hide CallsOrdered, RecordSound, Done, PublishedMeansDone;
    forall h | h in t.attempts
      ensures CallingOwns(t, h) && CallsOrdered(t.attempts[h])
    {
      assert CallingOwns(w, h) && CallsOrdered(w.attempts[h]);
    }
  }

  /** A finished attempt has every handler's success on record. */
  lemma FinishedMeansDone(w: World, h: nat)
    requires Inv(w) && h in w.attempts && w.attempts[h].phase.Finished?
    ensures w.hashes != [] && forall i | 0 <= i < |w.hashes| :: Done(w.records, i)
  {
    hide CallingOwns, CallsOrdered, RecordsSound, CallersApart, Done;
  }

  /** Steps that end attempts or move the outbox row. */
  lemma OtherInv(w: World, step: Step)
    requires Inv(w) && Legal(w, step)
    requires step.Crash? || step.MarkPublished? || step.MarkFailed? || step.ReplayDeadLetter? || step.Sweep?
    ensures Inv(Next(w, step))
  {
    hide OutboxRuns.Next, RecordsSound, AttemptsSound, CallersApart, Done, SweptAll, Begun, HandlerStarted, HandlerReturned, HandlerRaised;
    var t := Next(w, step);
    match step {
      case MarkPublished(h, d, now) =>
        if h in w.attempts && w.attempts[h].phase.Finished? {
          FinishedMeansDone(w, h);
        }
      case MarkFailed(h, d, error, retryDelay, now) =>
        OnlyPublishPublishes(w.outbox, OutboxRuns.Fail(h, d, error, retryDelay, now));
      case ReplayDeadLetter(_) => OnlyPublishPublishes(w.outbox, OutboxRuns.Replay);
      case Sweep(_) => SweepFindsNothing(w, step);
      case _ =>
    }
    FewerAttemptsInv(w, t);
  }

  lemma NextInv(w: World, step: Step)
    requires Inv(w) && Legal(w, step)
    ensures Inv(Next(w, step))
  {
    match step
    case ClaimEvent(_, _, _, _) => ClaimEventInv(w, step);
    case StartHandler(_, _) => StartHandlerInv(w, step);
    case HandlerReturns(_, _, _, _) => HandlerEndsInv(w, step);
    case HandlerRaises(_, _, _, _) => HandlerEndsInv(w, step);
    case _ => OtherInv(w, step);
  }

  lemma {:induction false} RunInv(w: World, steps: seq<Step>)
    requires Inv(w) && LegalRun(w, steps)
    ensures Inv(Run(w, steps))
    decreases |steps|
  {
    if steps != [] {
      NextInv(w, steps[0]);
      RunInv(Next(w, steps[0]), steps[1..]);
    }
  }

  lemma {:induction false} HashesFixed(w: World, steps: seq<Step>)
    requires LegalRun(w, steps)
    ensures Run(w, steps).hashes == w.hashes
    decreases |steps|
  {
    if steps != [] {
      HashesFixed(Next(w, steps[0]), steps[1..]);
    }
  }

  // ----- the theorems -----

  /** Over all attempts on one event, every registered handler returns normally at most once. */
  lemma EachHandlerReturnsAtMostOnce(maxAttempts: int, claimable: bool, hashes: seq<string>, clock: int,
                                     steps: seq<Step>, i: nat)
    requires LegalRun(Init(maxAttempts, claimable, hashes, clock), steps) && i < |hashes|
    ensures var w := Run(Init(maxAttempts, claimable, hashes, clock), steps);
            i < |w.returned| && w.returned[i] <= 1
  {
    RunInv(Init(maxAttempts, claimable, hashes, clock), steps);
    HashesFixed(Init(maxAttempts, claimable, hashes, clock), steps);
  }

  /** Without an external publisher, a published event has handlers and each has returned normally exactly once. */
  lemma PublishedMeansEveryHandlerRanOnce(maxAttempts: int, claimable: bool, hashes: seq<string>, clock: int,
                                          steps: seq<Step>)
    requires LegalRun(Init(maxAttempts, claimable, hashes, clock), steps)
    requires Run(Init(maxAttempts, claimable, hashes, clock), steps).outbox.row.status.Published?
    ensures var w := Run(Init(maxAttempts, claimable, hashes, clock), steps);
            && |w.returned| == |hashes| > 0
            && forall i | 0 <= i < |w.returned| :: w.returned[i] == 1
  {
    RunInv(Init(maxAttempts, claimable, hashes, clock), steps);
    HashesFixed(Init(maxAttempts, claimable, hashes, clock), steps);
    var w := Run(Init(maxAttempts, claimable, hashes, clock), steps);
    forall i | 0 <= i < |w.returned|
      ensures w.returned[i] == 1
    {
      assert Done(w.records, i);
    }
  }

  /** Every attempt calls handlers in registration order, and never one whose predecessors have not all succeeded;
      no handler is being called by two attempts at once. */
  lemma CallsFollowRegistrationOrder(maxAttempts: int, claimable: bool, hashes: seq<string>, clock: int,
                                     steps: seq<Step>, h: nat)
    requires LegalRun(Init(maxAttempts, claimable, hashes, clock), steps)
    requires h in Run(Init(maxAttempts, claimable, hashes, clock), steps).attempts
    ensures var w := Run(Init(maxAttempts, claimable, hashes, clock), steps);
            var a := w.attempts[h];
            && Increasing(a.called)
            && (forall i, j | i in a.called && 0 <= j < i :: j < |w.returned| && w.returned[j] == 1)
            && (forall g | g in w.attempts && g != h && a.phase.Calling? && w.attempts[g].phase.Calling? ::
                  w.attempts[g].passed != a.passed)
  {
    RunInv(Init(maxAttempts, claimable, hashes, clock), steps);
    var w := Run(Init(maxAttempts, claimable, hashes, clock), steps);
    forall i, j | i in w.attempts[h].called && 0 <= j < i
      ensures j < |w.returned| && w.returned[j] == 1
    {
      assert Done(w.records, j);
    }
  }

  // ----- an attempt without interruption -----

  /** One handler's turn: it is started and, if its claim starts it, ends at the same clock reading. */
  function Turn(w: World, h: nat, body: string, eventId: string, end: Events.CallResult, now: int): (t: World)
    requires WellFormed(w)
    ensures WellFormed(t)
  {
    var s := Next(w, StartHandler(h, now));
    if h in s.attempts && s.attempts[h].phase.Calling? && h in w.attempts && w.attempts[h].phase.Ready? then
      match end
      case Returns(_) => Next(s, HandlerReturns(h, body, eventId, now))
      case Raises(name, message) => Next(s, HandlerRaises(h, name, message, now))
    else s
  }

  /** The first n turns of attempt h. */
  function Turns(w: World, h: nat, envelope: Events.Envelope, keys: seq<string>, n: nat,
                 calls: seq<Events.HandlerRun>, nows: seq<int>): (t: World)
    requires WellFormed(w) && n <= |keys| == |calls| == |nows|
    ensures WellFormed(t)
  {
    if n == 0 then w
    else
      Turn(Turns(w, h, envelope, keys, n - 1, calls, nows), h, Events.HandlerBody(envelope, keys[n - 1]), envelope.eventId,
           calls[n - 1].end, nows[n - 1])
  }

  /** The world holds the handler records of the table. */
  predicate HoldsRecords(w: World, records: map<ScopeKey, Record>, envelope: Events.Envelope, keys: seq<string>) {
    && |keys| == |w.hashes| == |w.records|
    && (forall i | 0 <= i < |keys| :: w.claimable <==> !ScopeBlank(Events.HandlerScope(envelope, keys[i])))
    && forall i | 0 <= i < |keys| ::
         && w.hashes[i] == Events.HandlerRequestHash(envelope, keys[i])
         && w.records[i] == Events.HandlerRecord(records, envelope, keys[i])
  }

  /** Either all handler scopes of an event have a blank part, or none. */
  lemma ScopesBlankTogether(envelope: Events.Envelope, a: string, b: string)
    ensures ScopeBlank(Events.HandlerScope(envelope, a)) <==> ScopeBlank(Events.HandlerScope(envelope, b))
  {
    assert !IsSpace(Events.HandlerRoute(envelope, a)[0]) && !IsSpace(Events.HandlerRoute(envelope, b)[0]);
  }

  /** What a claim of handler i's record, its call and its mark come to, were they one step. */
  function GuardedTurn(w: World, i: nat, body: string, eventId: string, end: Events.CallResult, now: int): Events.Guarded
    requires WellFormed(w) && i < |w.hashes|
  {
    if w.claimable then Events.GuardedCall(w.records[i], w.hashes[i], end, body, eventId, now)
    else Events.Guarded(w.records[i], false, Some(ValidationError))
  }

  /** One turn leaves the record, makes the call and moves on or aborts as the guarded call does. */
  lemma TurnIsGuarded(w: World, h: nat, body: string, eventId: string, end: Events.CallResult, now: int)
    requires WellFormed(w) && h in w.attempts && w.attempts[h].phase.Ready?
    ensures var t := Turn(w, h, body, eventId, end, now);
            var n := w.attempts[h].passed;
            var g := GuardedTurn(w, n, body, eventId, end, now);
            && t.claimable == w.claimable && t.hashes == w.hashes
            && t.records == w.records[n := g.record]
            && h in t.attempts
            && t.attempts[h].called == (if g.ran then w.attempts[h].called + [n] else w.attempts[h].called)
            && (if g.error.None? then t.attempts[h] == Advance(w.attempts[h], |w.hashes|).(called := t.attempts[h].called)
                else t.attempts[h].phase.Aborted?)
  {
    hide Begun, SweptAll, OutboxRuns.Next;
  }

  /** One turn is one step of the registry's handler loop, whatever effects the handler runs. */
  lemma TurnIsHandlerCall(w: World, h: nat, records: map<ScopeKey, Record>, envelope: Events.Envelope, keys: seq<string>,
                          n: nat, call: Events.HandlerRun, now: int)
    requires WellFormed(w) && HoldsRecords(w, records, envelope, keys) && Distinct(keys) && n < |keys|
    requires h in w.attempts && w.attempts[h].phase.Ready? && w.attempts[h].passed == n
    ensures var t := Turn(w, h, Events.HandlerBody(envelope, keys[n]), envelope.eventId, call.end, now);
            var g := Events.HandlerCall(records, envelope, keys[n], call.end, now);
            && HoldsRecords(t, Events.AfterTurn(records, envelope, keys[n], call, now), envelope, keys)
            && h in t.attempts
            && t.attempts[h].called == (if g.ran then w.attempts[h].called + [n] else w.attempts[h].called)
            && (if g.error.None? then t.attempts[h].passed == n + 1 && t.attempts[h].phase == (if n + 1 == |keys| then Finished else Ready)
                else t.attempts[h].phase.Aborted?)
  {
    hide Events.AfterTurn, Events.HandlerRequestHash, Events.HandlerBody, Events.HandlerScope, Events.GuardedCall, Turn, ScopeBlank;
    TurnIsGuarded(w, h, Events.HandlerBody(envelope, keys[n]), envelope.eventId, call.end, now);
    var after := Events.AfterTurn(records, envelope, keys[n], call, now);
    forall i | 0 <= i < |keys|
      ensures i != n ==> Events.HandlerRecord(after, envelope, keys[i]) == Events.HandlerRecord(records, envelope, keys[i])
      ensures i == n ==> Events.HandlerRecord(after, envelope, keys[i]) ==
                         Events.HandlerCall(records, envelope, keys[n], call.end, now).record
    {
      Events.TurnFacts(records, envelope, keys[n], call, now, keys[i]);
    }
  }

  /** An attempt that runs its turns without interruption is the registry's dispatch: the same records, the same calls,
      and it is finished or aborted as the dispatch ends with or without an error. */
  lemma {:induction false} AttemptIsDispatch(w: World, h: nat, records: map<ScopeKey, Record>, envelope: Events.Envelope,
                                             keys: seq<string>, n: nat, calls: seq<Events.HandlerRun>, nows: seq<int>)
    requires WellFormed(w) && HoldsRecords(w, records, envelope, keys) && Distinct(keys)
    requires keys != [] && n <= |keys| == |calls| == |nows|
    requires h in w.attempts && w.attempts[h] == Attempt(0, Ready, [])
    ensures var t := Turns(w, h, envelope, keys, n, calls, nows);
            var a := Events.DispatchFirst(records, envelope, keys, n, calls, nows);
            && HoldsRecords(t, a.records, envelope, keys)
            && h in t.attempts && t.attempts[h].called == a.called
            && (if a.result.Ok? then t.attempts[h].passed == n && t.attempts[h].phase == (if n == |keys| then Finished else Ready)
                else t.attempts[h].phase.Aborted?)
  {
    hide HoldsRecords, Events.AfterTurn, Events.HandlerCall, Turn, ScopeBlank, Events.HandlerScope;
    if n > 0 {
      AttemptIsDispatch(w, h, records, envelope, keys, n - 1, calls, nows);
      var t := Turns(w, h, envelope, keys, n - 1, calls, nows);
      var a := Events.DispatchFirst(records, envelope, keys, n - 1, calls, nows);
      if a.result.Ok? {
        TurnIsHandlerCall(t, h, a.records, envelope, keys, n - 1, calls[n - 1], nows[n - 1]);
      } else {
        AbortedStays(t, h, a.records, envelope, keys, Events.HandlerBody(envelope, keys[n - 1]), calls[n - 1].end, nows[n - 1]);
      }
    }
  }

  lemma AbortedStays(w: World, h: nat, records: map<ScopeKey, Record>, envelope: Events.Envelope, keys: seq<string>,
                     body: string, end: Events.CallResult, now: int)
    requires WellFormed(w) && HoldsRecords(w, records, envelope, keys) && h in w.attempts && w.attempts[h].phase.Aborted?
    ensures Turn(w, h, body, envelope.eventId, end, now) == w.(clock := now)
    ensures HoldsRecords(w.(clock := now), records, envelope, keys)
  {
  }
}
