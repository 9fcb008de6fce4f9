/** When the answers to reservations can be trusted: over all interleavings, which limits, starting rows and releases let
    a reservation be refused though its amount is in the row, or allowed though it is not. */
module QuotaAnswers {
  import opened Common
  import opened QuotaRaces

  // ----- what callers may do -----

  predicate StartsRelease(s: System, step: Step) {
    step.Proceed? && step.claim < |s.claims| && (s.claims[step.claim].phase.Kept? || s.claims[step.claim].phase.Phantom?)
  }

  /** Limits lie between low and high, and callers release only if `releasing`. */
  predicate Permitted(s: System, step: Step, low: nat, high: nat, releasing: bool) {
    && (step.Reserve? ==> low <= step.limit <= high)
    && (StartsRelease(s, step) ==> releasing)
  }

  predicate AllPermitted(s: System, steps: seq<Step>, low: nat, high: nat, releasing: bool)
    decreases |steps|
  {
    steps == [] || (Permitted(s, steps[0], low, high, releasing) && AllPermitted(Next(s, steps[0]), steps[1..], low, high, releasing))
  }

  predicate HasPhase(s: System, phase: Phase) {
    exists i | 0 <= i < |s.claims| :: s.claims[i].phase == phase
  }

  lemma Unroll(s: System, steps: seq<Step>, n: nat, low: nat, high: nat, releasing: bool)
    requires n < |steps|
    ensures Run(s, steps[n..]) == Run(Next(s, steps[n]), steps[n + 1..])
    ensures AllPermitted(s, steps[n..], low, high, releasing) <==>
            Permitted(s, steps[n], low, high, releasing) && AllPermitted(Next(s, steps[n]), steps[n + 1..], low, high, releasing)
  {
    hide Next, Permitted;
    assert steps[n..][0] == steps[n] && steps[n..][1..] == steps[n + 1..];
  }

  /** A run through these states. */
  lemma {:induction false} RunThrough(states: seq<System>, steps: seq<Step>, n: nat, low: nat, high: nat, releasing: bool)
    requires |states| == |steps| + 1 && n <= |steps|
    requires forall i | n <= i < |steps| :: states[i + 1] == Next(states[i], steps[i]) && Permitted(states[i], steps[i], low, high, releasing)
    ensures Run(states[n], steps[n..]) == states[|steps|] && AllPermitted(states[n], steps[n..], low, high, releasing)
    decreases |steps| - n
  {
    hide Next, Permitted;
    if n < |steps| {
      Unroll(states[n], steps, n, low, high, releasing);
      RunThrough(states, steps, n + 1, low, high, releasing);
    } else {
      assert steps[n..] == [];
    }
  }

  // ----- one limit -----

  /** Nothing was committed or allowed for these. */
  predicate Quiet(p: Phase) {
    InStore(p) || p.Refused? || p.Denied?
  }

  predicate WithinLimit(row: Option<nat>, c: Claim, low: nat, limit: nat) {
    && c.amount > 0 && low <= c.limit <= limit
    && (c.amount <= c.limit || c.phase.Refused? || c.phase.Denied?)
    && !c.phase.Lost?
    && (Usage(row) <= limit || Quiet(c.phase))
    && (c.phase.Releasing? ==> c.phase.seen <= limit)
    && (c.phase.Retrying? ==> row.Some?)
  }

  /** All reservations that can go through have one limit, and the usage stays within it once there is one. */
  predicate OneLimit(s: System, low: nat, limit: nat) {
    forall i | 0 <= i < |s.claims| :: WithinLimit(s.row, s.claims[i], low, limit)
  }

  lemma NextOneLimit(s: System, step: Step, low: nat, limit: nat, releasing: bool)
    requires OneLimit(s, low, limit) && Permitted(s, step, low, limit, releasing) && Max(low, 1) >= limit
    ensures OneLimit(Next(s, step), low, limit)
  {
    var t := Next(s, step);
    if step.Proceed? && step.claim < |s.claims| {
      assert WithinLimit(s.row, s.claims[step.claim], low, limit);
    }
    assert Usage(s.row) <= limit ==> Usage(t.row) <= limit;
    forall i | 0 <= i < |t.claims|
      ensures WithinLimit(t.row, t.claims[i], low, limit)
    {
      assert i < |s.claims| ==> WithinLimit(s.row, s.claims[i], low, limit);
    }
  }

  lemma {:induction false} RunOneLimit(s: System, steps: seq<Step>, low: nat, limit: nat, releasing: bool)
    requires OneLimit(s, low, limit) && AllPermitted(s, steps, low, limit, releasing) && Max(low, 1) >= limit
    ensures OneLimit(Run(s, steps), low, limit)
    decreases |steps|
  {
    hide Next, OneLimit, Permitted;
    if steps != [] {
      NextOneLimit(s, steps[0], low, limit, releasing);
      RunOneLimit(Next(s, steps[0]), steps[1..], low, limit, releasing);
    }
  }

  // ----- no room for what was not committed -----

  predicate NoRoom(row: Option<nat>, c: Claim, high: nat) {
    && c.amount > 0 && c.limit <= high
    && !c.phase.Phantom? && !c.phase.Releasing? && !c.phase.Released?
    && (c.phase.Refused? ==> Usage(row) + c.amount > c.limit)
    && (InStore(c.phase) ==> row.None? || Usage(row) + c.amount > c.limit)
    && (c.phase.Retrying? ==> row.Some?)
  }

  /** Without releases usage only grows: what has been refused stays too much, as has what is still on its way in the
      store once there is a row. Without a row limits of at most one make sure of that. */
  predicate NoRoomLeft(s: System, high: nat) {
    && (s.row.Some? || high <= 1)
    && forall i | 0 <= i < |s.claims| :: NoRoom(s.row, s.claims[i], high)
  }

  lemma NextNoRoom(s: System, step: Step, low: nat, high: nat)
    requires NoRoomLeft(s, high) && Permitted(s, step, low, high, false)
    ensures NoRoomLeft(Next(s, step), high)
  {
    var t := Next(s, step);
    if step.Proceed? && step.claim < |s.claims| {
      assert NoRoom(s.row, s.claims[step.claim], high);
    }
    assert Usage(s.row) <= Usage(t.row) && (s.row.Some? ==> t.row.Some?);
    assert s.row.None? && t.row.Some? ==> t.row.value >= 1 && high <= 1;
    forall i | 0 <= i < |t.claims|
      ensures NoRoom(t.row, t.claims[i], high)
    {
      assert i < |s.claims| ==> NoRoom(s.row, s.claims[i], high);
    }
  }

  lemma {:induction false} RunNoRoom(s: System, steps: seq<Step>, low: nat, high: nat)
    requires NoRoomLeft(s, high) && AllPermitted(s, steps, low, high, false)
    ensures NoRoomLeft(Run(s, steps), high)
    decreases |steps|
  {
    hide Next, NoRoomLeft, Permitted;
    if steps != [] {
      NextNoRoom(s, steps[0], low, high);
      RunNoRoom(Next(s, steps[0]), steps[1..], low, high);
    }
  }

  // ----- limits of zero -----

  /** Every claim was refused for asking more than its limit. */
  predicate AllRefused(s: System) {
    forall i | 0 <= i < |s.claims| ::
      s.claims[i].amount > s.claims[i].limit && (s.claims[i].phase.Refused? || s.claims[i].phase.Denied?)
  }

  lemma {:induction false} RunAllRefused(s: System, steps: seq<Step>, low: nat, releasing: bool)
    requires AllRefused(s) && AllPermitted(s, steps, low, 0, releasing)
    ensures AllRefused(Run(s, steps)) && Run(s, steps).row == s.row
    decreases |steps|
  {
    if steps != [] {
      RunAllRefused(Next(s, steps[0]), steps[1..], low, releasing);
    }
  }

  // ----- runs that go wrong -----

  /** A write-back finds the row as that release read it. */
  predicate FindsWhatItRead(s: System, step: Step) {
    step.Proceed? && step.claim < |s.claims| && s.claims[step.claim].phase.Releasing? ==>
      s.row == Some(s.claims[step.claim].phase.seen)
  }

  predicate AllFindWhatTheyRead(s: System, steps: seq<Step>)
    decreases |steps|
  {
    steps == [] || (FindsWhatItRead(s, steps[0]) && AllFindWhatTheyRead(Next(s, steps[0]), steps[1..]))
  }

  lemma {:induction false} FindThrough(states: seq<System>, steps: seq<Step>, n: nat)
    requires |states| == |steps| + 1 && n <= |steps|
    requires forall i | n <= i < |steps| :: states[i + 1] == Next(states[i], steps[i]) && FindsWhatItRead(states[i], steps[i])
    ensures AllFindWhatTheyRead(states[n], steps[n..])
    decreases |steps| - n
  {
    hide Next, FindsWhatItRead;
    if n < |steps| {
      FindThrough(states, steps, n + 1);
      assert steps[n..][0] == steps[n] && steps[n..][1..] == steps[n + 1..];
    } else {
      assert steps[n..] == [];
    }
  }

  function AmountOf(c: Claim, phases: set<Phase>): nat {
    if c.phase in phases then c.amount else 0
  }

  lemma AmountInTwo(a: Claim, b: Claim, phases: set<Phase>)
    ensures AmountIn([a, b], phases) == AmountOf(a, phases) + AmountOf(b, phases)
  {
    assert [a, b][..1] == [a] && [a][..0] == [];
    assert AmountIn([a], phases) == AmountOf(a, phases);
  }

  lemma AmountInThree(a: Claim, b: Claim, c: Claim, phases: set<Phase>)
    ensures AmountIn([a, b, c], phases) == AmountOf(a, phases) + AmountOf(b, phases) + AmountOf(c, phases)
  {
    AmountInTwo(a, b, phases);
    assert [a, b, c][..2] == [a, b];
  }

  /** A small reservation under the low limit, and before it is read again a large one under the high limit. */
  function Overtaken(used: nat, low: nat, high: nat): seq<Step>
    requires used < low < high
  {
    [Reserve(1, low), Reserve(high - used - 1, high), Proceed(0), Proceed(1)]
  }

  /** On an existing row below the low limit, the small reservation is kept in the row and reported as refused. */
  lemma OvertakenIsLost(used: nat, low: nat, high: nat)
    requires used < low < high
    ensures var start := System(Some(used), []);
            var s := Run(start, Overtaken(used, low, high));
            && AllPermitted(start, Overtaken(used, low, high), low, high, false) && AtRest(s)
            && HasPhase(s, Lost) && Used(s) == high && HeldAmount(s) == high - used - 1
  {
    hide Next, Permitted;
    var steps := Overtaken(used, low, high);
    var states := OvertakenStates(used, low, high);
    OvertakenSteps(used, low, high);
    RunThrough(states, steps, 0, low, high, false);
    assert steps[0..] == steps && states[4].claims[0].phase == Lost;
    AmountInTwo(states[4].claims[0], states[4].claims[1], {Kept, Phantom});
  }

  function OvertakenStates(used: nat, low: nat, high: nat): (states: seq<System>)
    requires used < low < high
    ensures |states| == 5
  {
    var c, d := Claim(1, low, Committed), Claim(high - used - 1, high, Committed);
    [System(Some(used), []),
     System(Some(used + 1), [c]),
     System(Some(high), [c, d]),
     System(Some(high), [c.(phase := Lost), d]),
     System(Some(high), [c.(phase := Lost), d.(phase := Kept)])]
  }

  lemma OvertakenSteps(used: nat, low: nat, high: nat)
    requires used < low < high
    ensures var states := OvertakenStates(used, low, high);
            var steps := Overtaken(used, low, high);
            forall i | 0 <= i < 4 :: states[i + 1] == Next(states[i], steps[i]) && Permitted(states[i], steps[i], low, high, false)
  {
    var states := OvertakenStates(used, low, high);
    assert states[1].claims + [Claim(high - used - 1, high, Committed)] == states[2].claims;
  }

  /** Both updates miss; the second caller inserts its row; only then does the first one look for one. */
  function InsertedMeanwhile(a: nat, b: nat, limit: nat): seq<Step> {
    [Reserve(a, limit), Reserve(b, limit), Proceed(1), Proceed(1), Proceed(0), Proceed(0)]
  }

  /** The first caller is refused by the store and then allowed by the service, with nothing in the row: without a
      release, a loss or a second limit. */
  lemma InsertedMeanwhileIsPhantom(a: nat, b: nat, limit: nat)
    requires a > 0 && b > 0 && a + b <= limit
    ensures var start := System(None, []);
            var s := Run(start, InsertedMeanwhile(a, b, limit));
            && AllPermitted(start, InsertedMeanwhile(a, b, limit), limit, limit, false) && AtRest(s)
            && HasPhase(s, Phantom) && Used(s) == b && HeldAmount(s) == a + b
  {
    hide Next, Permitted;
    var steps := InsertedMeanwhile(a, b, limit);
    var states := InsertedStates(a, b, limit);
    InsertedSteps(a, b, limit);
    RunThrough(states, steps, 0, limit, limit, false);
    assert steps[0..] == steps && states[6].claims[0].phase == Phantom;
    AmountInTwo(states[6].claims[0], states[6].claims[1], {Kept, Phantom});
  }

  function InsertedStates(a: nat, b: nat, limit: nat): (states: seq<System>)
    ensures |states| == 7
  {
    var c, d := Claim(a, limit, Missed(false)), Claim(b, limit, Missed(false));
    [System(None, []),
     System(None, [c]),
     System(None, [c, d]),
     System(None, [c, d.(phase := Absent(false))]),
     System(Some(b), [c, d.(phase := Kept)]),
     System(Some(b), [c.(phase := Refused), d.(phase := Kept)]),
     System(Some(b), [c.(phase := Phantom), d.(phase := Kept)])]
  }

  lemma InsertedSteps(a: nat, b: nat, limit: nat)
    requires a > 0 && b > 0 && a + b <= limit
    ensures var states := InsertedStates(a, b, limit);
            var steps := InsertedMeanwhile(a, b, limit);
            forall i | 0 <= i < 6 :: states[i + 1] == Next(states[i], steps[i]) && Permitted(states[i], steps[i], limit, limit, false)
  {
    var states := InsertedStates(a, b, limit);
    assert states[1].claims + [Claim(b, limit, Missed(false))] == states[2].claims;
  }

  /** The row is full of one kept amount, a second reservation is refused, the first one is released, and then the
      service reads again. */
  function FreedMeanwhile(a: nat, b: nat, limit: nat): seq<Step> {
    [Reserve(b, limit), Proceed(0), Reserve(a, limit), Proceed(1), Proceed(0), Proceed(0), Proceed(1)]
  }

  function Freed(base: nat, a: nat, b: nat, limit: nat): (states: seq<System>)
    ensures |states| == 8
  {
    var c, d := Claim(b, limit, Committed), Claim(a, limit, Missed(false));
    var full := Some(base + b);
    [System(Some(base), []),
     System(full, [c]),
     System(full, [c.(phase := Kept)]),
     System(full, [c.(phase := Kept), d]),
     System(full, [c.(phase := Kept), d.(phase := Refused)]),
     System(full, [c.(phase := Releasing(base + b, true)), d.(phase := Refused)]),
     System(Some(base), [c.(phase := Released), d.(phase := Refused)]),
     System(Some(base), [c.(phase := Released), d.(phase := Phantom)])]
  }

  /** The second caller is allowed with nothing in the row, though the release was not interrupted. */
  lemma FreedMeanwhileIsPhantom(base: nat, a: nat, b: nat, limit: nat)
    requires 0 < a <= b && base + b <= limit < base + b + a
    ensures var start := System(Some(base), []);
            var s := Run(start, FreedMeanwhile(a, b, limit));
            && AllPermitted(start, FreedMeanwhile(a, b, limit), limit, limit, true)
            && AllFindWhatTheyRead(start, FreedMeanwhile(a, b, limit)) && AtRest(s)
            && HasPhase(s, Phantom) && Used(s) == base && HeldAmount(s) == a
  {
    var steps := FreedMeanwhile(a, b, limit);
    var states := Freed(base, a, b, limit);
    FreedSteps(base, a, b, limit);
    RunThrough(states, steps, 0, limit, limit, true);
    FindThrough(states, steps, 0);
    assert steps[0..] == steps;
    var s := states[7];
    assert s.claims[1].phase == Phantom;
    AmountInTwo(s.claims[0], s.claims[1], {Kept, Phantom});
  }

  lemma FreedSteps(base: nat, a: nat, b: nat, limit: nat)
    requires 0 < a <= b && base + b <= limit < base + b + a
    ensures var states := Freed(base, a, b, limit);
            var steps := FreedMeanwhile(a, b, limit);
            && (forall i | 0 <= i < 7 :: states[i + 1] == Next(states[i], steps[i]))
            && (forall i | 0 <= i < 7 :: Permitted(states[i], steps[i], limit, limit, true) && FindsWhatItRead(states[i], steps[i]))
  {
    var states := Freed(base, a, b, limit);
    assert states[2].claims + [Claim(a, limit, Missed(false))] == states[3].claims;
  }

  /** A third caller reserves, and then the phantom is released. */
  function PhantomReleased(a: nat, b: nat, c: nat, limit: nat): seq<Step> {
    FreedMeanwhile(a, b, limit) + [Reserve(c, limit), Proceed(2), Proceed(1), Proceed(1)]
  }

  /** Though it finds the row as it read it, the release takes an amount that was never in the row out of the kept one. */
  lemma PhantomReleaseTakesKept(base: nat, a: nat, b: nat, c: nat, limit: nat)
    requires 0 < a <= b && base + b <= limit < base + b + a && a <= c && base + c <= limit
    ensures var start := System(Some(base), []);
            var s := Run(start, PhantomReleased(a, b, c, limit));
            && AllPermitted(start, PhantomReleased(a, b, c, limit), limit, limit, true)
            && AllFindWhatTheyRead(start, PhantomReleased(a, b, c, limit)) && AtRest(s)
            && !HasPhase(s, Lost) && !HasPhase(s, Phantom) && HeldAmount(s) == c && Used(s) == base + c - a
  {
    hide Next, FindsWhatItRead, Permitted;
    var steps := PhantomReleased(a, b, c, limit);
    var states := Freed(base, a, b, limit) + PhantomStates(base, a, b, c, limit);
    FreedSteps(base, a, b, limit);
    PhantomSteps(base, a, b, c, limit);
    forall i | 0 <= i < 11
      ensures states[i + 1] == Next(states[i], steps[i])
      ensures Permitted(states[i], steps[i], limit, limit, true) && FindsWhatItRead(states[i], steps[i])
    {
      if i < 7 {
        assert states[i] == Freed(base, a, b, limit)[i] && states[i + 1] == Freed(base, a, b, limit)[i + 1];
        assert steps[i] == FreedMeanwhile(a, b, limit)[i];
      }
    }
    RunThrough(states, steps, 0, limit, limit, true);
    FindThrough(states, steps, 0);
    assert steps[0..] == steps;
    var s := states[11];
    AmountInThree(s.claims[0], s.claims[1], s.claims[2], {Kept, Phantom});
  }

  function PhantomStates(base: nat, a: nat, b: nat, c: nat, limit: nat): (states: seq<System>)
    requires a <= base + c
    ensures |states| == 4
  {
    var d, e, f := Claim(b, limit, Released), Claim(a, limit, Phantom), Claim(c, limit, Committed);
    [System(Some(base + c), [d, e, f]),
     System(Some(base + c), [d, e, f.(phase := Kept)]),
     System(Some(base + c), [d, e.(phase := Releasing(base + c, false)), f.(phase := Kept)]),
     System(Some(base + c - a), [d, e.(phase := Released), f.(phase := Kept)])]
  }

  lemma PhantomSteps(base: nat, a: nat, b: nat, c: nat, limit: nat)
    requires 0 < a <= c && base + c <= limit
    ensures var states := PhantomStates(base, a, b, c, limit);
            && Next(Freed(base, a, b, limit)[7], Reserve(c, limit)) == states[0]
            && Next(states[0], Proceed(2)) == states[1]
            && Next(states[1], Proceed(1)) == states[2] && Next(states[2], Proceed(1)) == states[3]
            && Permitted(Freed(base, a, b, limit)[7], Reserve(c, limit), limit, limit, true)
            && Permitted(states[0], Proceed(2), limit, limit, true)
            && Permitted(states[1], Proceed(1), limit, limit, true) && Permitted(states[2], Proceed(1), limit, limit, true)
            && FindsWhatItRead(Freed(base, a, b, limit)[7], Reserve(c, limit))
            && FindsWhatItRead(states[0], Proceed(2))
            && FindsWhatItRead(states[1], Proceed(1)) && FindsWhatItRead(states[2], Proceed(1))
  {
    var freed := Freed(base, a, b, limit)[7];
    assert freed.claims + [Claim(c, limit, Committed)] == PhantomStates(base, a, b, c, limit)[0].claims;
  }

  /** Two kept reservations, both read for release before either is written back. */
  function TwoReleases(a: nat, b: nat, limit: nat): seq<Step> {
    [Reserve(a, limit), Reserve(b, limit), Proceed(0), Proceed(1), Proceed(0), Proceed(1), Proceed(0), Proceed(1)]
  }

  /** All is given back, nothing was lost, and yet the first release is forgotten: its amount stays in the row. */
  lemma OverlappingReleasesLeak(base: nat, a: nat, b: nat, limit: nat)
    requires a > 0 && b > 0 && base + a + b <= limit
    ensures var start := System(Some(base), []);
            var s := Run(start, TwoReleases(a, b, limit));
            && AllPermitted(start, TwoReleases(a, b, limit), limit, limit, true) && AtRest(s)
            && !HasPhase(s, Lost) && !HasPhase(s, Phantom) && HeldAmount(s) == 0 && Used(s) == base + a
  {
    hide Next, Permitted;
    var steps := TwoReleases(a, b, limit);
    var states := TwoReleasesStates(base, a, b, limit);
    TwoReleasesBegins(base, a, b, limit);
    TwoReleasesEnds(base, a, b, limit);
    RunThrough(states, steps, 0, limit, limit, true);
    assert steps[0..] == steps;
    AmountInTwo(states[8].claims[0], states[8].claims[1], {Kept, Phantom});
  }

  function TwoReleasesStates(base: nat, a: nat, b: nat, limit: nat): (states: seq<System>)
    ensures |states| == 9
  {
    var full := base + a + b;
    var c, d := Claim(a, limit, Committed), Claim(b, limit, Committed);
    var r, t := c.(phase := Releasing(full, true)), d.(phase := Releasing(full, true));
    [System(Some(base), []),
     System(Some(base + a), [c]),
     System(Some(full), [c, d]),
     System(Some(full), [c.(phase := Kept), d]),
     System(Some(full), [c.(phase := Kept), d.(phase := Kept)]),
     System(Some(full), [r, d.(phase := Kept)]),
     System(Some(full), [r, t]),
     System(Some(base + b), [c.(phase := Released), t]),
     System(Some(base + a), [c.(phase := Released), d.(phase := Released)])]
  }

  lemma TwoReleasesBegins(base: nat, a: nat, b: nat, limit: nat)
    requires a > 0 && b > 0 && base + a + b <= limit
    ensures var states := TwoReleasesStates(base, a, b, limit);
            var steps := TwoReleases(a, b, limit);
            forall i | 0 <= i < 4 :: states[i + 1] == Next(states[i], steps[i]) && Permitted(states[i], steps[i], limit, limit, true)
  {
    var states := TwoReleasesStates(base, a, b, limit);
    assert states[1].claims + [Claim(b, limit, Committed)] == states[2].claims;
  }

  lemma TwoReleasesEnds(base: nat, a: nat, b: nat, limit: nat)
    requires a > 0 && b > 0 && base + a + b <= limit
    ensures var states := TwoReleasesStates(base, a, b, limit);
            var steps := TwoReleases(a, b, limit);
            forall i | 4 <= i < 8 :: states[i + 1] == Next(states[i], steps[i]) && Permitted(states[i], steps[i], limit, limit, true)
  {
  }

  /** A reservation that comes between the reading and the writing of a release, and one more that fills the row. */
  function ReserveWhileReleasing(base: nat, a: nat, b: nat, limit: nat): seq<Step>
    requires base <= limit
  {
    [Reserve(a, limit), Proceed(0), Proceed(0), Reserve(b, limit), Proceed(1), Proceed(0), Reserve(limit - base, limit), Proceed(2)]
  }

  /** The write-back wipes out the reservation in between, so that what callers hold exceeds the limit. */
  lemma ReleaseWipesReservation(base: nat, a: nat, b: nat, limit: nat)
    requires a > 0 && b > 0 && base + a + b <= limit
    ensures var start := System(Some(base), []);
            var s := Run(start, ReserveWhileReleasing(base, a, b, limit));
            && AllPermitted(start, ReserveWhileReleasing(base, a, b, limit), limit, limit, true) && AtRest(s)
            && !HasPhase(s, Lost) && !HasPhase(s, Phantom) && Used(s) == limit && base + HeldAmount(s) == limit + b
  {
    hide Next, Permitted;
    var steps := ReserveWhileReleasing(base, a, b, limit);
    var states := WipedStates(base, a, b, limit);
    WipedBegins(base, a, b, limit);
    WipedEnds(base, a, b, limit);
    RunThrough(states, steps, 0, limit, limit, true);
    assert steps[0..] == steps;
    AmountInThree(states[8].claims[0], states[8].claims[1], states[8].claims[2], {Kept, Phantom});
  }

  function WipedStates(base: nat, a: nat, b: nat, limit: nat): (states: seq<System>)
    requires base <= limit
    ensures |states| == 9
  {
    var c, d, e := Claim(a, limit, Committed), Claim(b, limit, Committed), Claim(limit - base, limit, Committed);
    var r, k, g := c.(phase := Releasing(base + a, true)), d.(phase := Kept), c.(phase := Released);
    [System(Some(base), []),
     System(Some(base + a), [c]),
     System(Some(base + a), [c.(phase := Kept)]),
     System(Some(base + a), [r]),
     System(Some(base + a + b), [r, d]),
     System(Some(base + a + b), [r, k]),
     System(Some(base), [g, k]),
     System(Some(limit), [g, k, e]),
     System(Some(limit), [g, k, e.(phase := Kept)])]
  }

  lemma WipedBegins(base: nat, a: nat, b: nat, limit: nat)
    requires a > 0 && b > 0 && base + a + b <= limit
    ensures var states := WipedStates(base, a, b, limit);
            var steps := ReserveWhileReleasing(base, a, b, limit);
            forall i | 0 <= i < 4 :: states[i + 1] == Next(states[i], steps[i]) && Permitted(states[i], steps[i], limit, limit, true)
  {
    var states := WipedStates(base, a, b, limit);
    assert states[3].claims + [Claim(b, limit, Committed)] == states[4].claims;
  }

  lemma WipedEnds(base: nat, a: nat, b: nat, limit: nat)
    requires a > 0 && b > 0 && base + a + b <= limit
    ensures var states := WipedStates(base, a, b, limit);
            var steps := ReserveWhileReleasing(base, a, b, limit);
            forall i | 4 <= i < 8 :: states[i + 1] == Next(states[i], steps[i]) && Permitted(states[i], steps[i], limit, limit, true)
  {
    var states := WipedStates(base, a, b, limit);
    assert states[6].claims + [Claim(limit - base, limit, Committed)] == states[7].claims;
  }

  // ----- the exact conditions -----

  /** No reservation is kept in the row and reported as refused, in whatever run. */
  ghost predicate NothingIsLost(low: nat, high: nat, releasing: bool) {
    forall row: Option<nat>, steps: seq<Step> | AllPermitted(System(row, []), steps, low, high, releasing) ::
      !HasPhase(Run(System(row, []), steps), Lost)
  }

  /** With limits between low and high on one usage key, no interleaving loses a reservation exactly when all limits that
      let anything through are the same, whether callers release or not. */
  lemma NothingIsLostIff(low: nat, high: nat, releasing: bool)
    requires low <= high
    ensures NothingIsLost(low, high, releasing) <==> Max(low, 1) >= high
  {
    if Max(low, 1) >= high {
      forall row: Option<nat>, steps: seq<Step> | AllPermitted(System(row, []), steps, low, high, releasing)
        ensures !HasPhase(Run(System(row, []), steps), Lost)
      {
        RunOneLimit(System(row, []), steps, low, high, releasing);
      }
    } else {
      OvertakenIsLost(0, Max(low, 1), high);
      PermitsMore(System(Some(0), []), Overtaken(0, Max(low, 1), high), Max(low, 1), high, false, low, releasing);
    }
  }

  lemma {:induction false} PermitsMore(s: System, steps: seq<Step>, low: nat, high: nat, releasing: bool, lower: nat,
                                       more: bool)
    requires AllPermitted(s, steps, low, high, releasing) && lower <= low && (releasing ==> more)
    ensures AllPermitted(s, steps, lower, high, more)
    decreases |steps|
  {
    hide Next;
    if steps != [] {
      PermitsMore(Next(s, steps[0]), steps[1..], low, high, releasing, lower, more);
    }
  }

  /** No reservation is allowed without its amount in the row, in whatever run; `existing` says that the row is there
      before the first one. */
  ghost predicate NothingIsPhantom(low: nat, high: nat, existing: bool, releasing: bool) {
    forall row: Option<nat>, steps: seq<Step>
      | (existing ==> row.Some?) && AllPermitted(System(row, []), steps, low, high, releasing) ::
      !HasPhase(Run(System(row, []), steps), Phantom)
  }

  /** No answer is allowed without a commit exactly when nobody releases and the row exists, or limits leave no room for
      a second reservation beside an inserted one, or for any. */
  lemma NothingIsPhantomIff(low: nat, high: nat, existing: bool, releasing: bool)
    requires low <= high
    ensures NothingIsPhantom(low, high, existing, releasing) <==> high == 0 || (!releasing && (existing || high == 1))
  {
    if high == 0 {
      forall row: Option<nat>, steps: seq<Step> | AllPermitted(System(row, []), steps, low, high, releasing)
        ensures !HasPhase(Run(System(row, []), steps), Phantom)
      {
        RunAllRefused(System(row, []), steps, low, releasing);
      }
    } else if releasing {
      FreedMeanwhileIsPhantom(0, high, high, high);
      PermitsMore(System(Some(0), []), FreedMeanwhile(high, high, high), high, high, true, low, true);
    } else if existing || high == 1 {
      forall row: Option<nat>, steps: seq<Step>
        | (existing ==> row.Some?) && AllPermitted(System(row, []), steps, low, high, releasing)
        ensures !HasPhase(Run(System(row, []), steps), Phantom)
      {
        RunNoRoom(System(row, []), steps, low, high);
      }
    } else {
      InsertedMeanwhileIsPhantom(1, 1, high);
      PermitsMore(System(None, []), InsertedMeanwhile(1, 1, high), high, high, false, low, false);
    }
  }

  /** Whenever all callers have their answers, the row holds its first value and exactly what they know they have. */
  ghost predicate AlwaysAccounted(low: nat, high: nat, existing: bool, releasing: bool) {
    forall row: Option<nat>, steps: seq<Step>
      | (existing ==> row.Some?) && AllPermitted(System(row, []), steps, low, high, releasing) :: Accounted(row, steps)
  }

  predicate Accounted(row: Option<nat>, steps: seq<Step>) {
    var s := Run(System(row, []), steps);
    AtRest(s) ==> Used(s) == Usage(row) + HeldAmount(s)
  }

  /** Over all interleavings callers account for the usage of a key exactly when all limits that let anything through
      are the same, nobody releases, and the row exists or the limits leave no room beside an inserted one. */
  lemma AlwaysAccountedIff(low: nat, high: nat, existing: bool, releasing: bool)
    requires low <= high
    ensures AlwaysAccounted(low, high, existing, releasing) <==>
            high == 0 || (Max(low, 1) >= high && !releasing && (existing || high == 1))
  {
    if high == 0 || (Max(low, 1) >= high && !releasing && (existing || high == 1)) {
      forall row: Option<nat>, steps: seq<Step>
        | (existing ==> row.Some?) && AllPermitted(System(row, []), steps, low, high, releasing)
        ensures Accounted(row, steps)
      {
        AnswersAccount(row, steps, low, high, existing, releasing);
      }
    } else {
      var row, steps := WrongAccount(low, high, existing, releasing);
    }
  }

  /** Without losses, phantoms and write-backs nothing moves the row away from what callers know. */
  lemma AnswersAccount(row: Option<nat>, steps: seq<Step>, low: nat, high: nat, existing: bool, releasing: bool)
    requires low <= high && AllPermitted(System(row, []), steps, low, high, releasing) && (existing ==> row.Some?)
    requires high == 0 || (Max(low, 1) >= high && !releasing && (existing || high == 1))
    ensures Accounted(row, steps)
  {
    var s := Run(System(row, []), steps);
    if AtRest(s) {
      CallersAreOffBy(row, steps);
      if high == 0 {
        RunAllRefused(System(row, []), steps, low, releasing);
        NoneIn(s.claims, {Kept, Phantom});
      } else {
        RunOneLimit(System(row, []), steps, low, high, releasing);
        RunNoRoom(System(row, []), steps, low, high);
        NoReleaseNoDrift(System(row, []), steps, low, high);
        NoneIn(s.claims, {Lost});
        NoneIn(s.claims, {Phantom});
      }
    }
  }

  lemma {:induction false} NoneIn(claims: seq<Claim>, phases: set<Phase>)
    requires forall i | 0 <= i < |claims| :: claims[i].phase !in phases
    ensures AmountIn(claims, phases) == 0
    decreases |claims|
  {
    if claims != [] {
      NoneIn(claims[..|claims| - 1], phases);
    }
  }

  lemma {:induction false} NoReleaseNoDrift(s: System, steps: seq<Step>, low: nat, high: nat)
    requires NoRoomLeft(s, high) && AllPermitted(s, steps, low, high, false)
    ensures Drift(s, steps) == 0
    decreases |steps|
  {
    hide Next;
    if steps != [] {
      NextNoRoom(s, steps[0], low, high);
      NoReleaseNoDrift(Next(s, steps[0]), steps[1..], low, high);
    }
  }

  lemma WrongAccount(low: nat, high: nat, existing: bool, releasing: bool) returns (row: Option<nat>, steps: seq<Step>)
    requires low <= high && high > 0 && !(Max(low, 1) >= high && !releasing && (existing || high == 1))
    ensures (existing ==> row.Some?) && AllPermitted(System(row, []), steps, low, high, releasing) && !Accounted(row, steps)
  {
    if Max(low, 1) < high {
      row, steps := Some(0), Overtaken(0, Max(low, 1), high);
      OvertakenIsLost(0, Max(low, 1), high);
      PermitsMore(System(row, []), steps, Max(low, 1), high, false, low, releasing);
    } else if releasing {
      row, steps := Some(0), FreedMeanwhile(high, high, high);
      FreedMeanwhileIsPhantom(0, high, high, high);
      PermitsMore(System(row, []), steps, high, high, true, low, true);
    } else {
      row, steps := None, InsertedMeanwhile(1, 1, high);
      InsertedMeanwhileIsPhantom(1, 1, high);
      PermitsMore(System(row, []), steps, high, high, false, low, false);
    }
  }
}
