/** Reservations and releases of one usage row by any number of callers at once, statement by statement. The database
    store reserves with a conditional update; when that hits no row it looks for one and, if there is none, inserts its
    own. The service then reads the row again and decides on what it reads, also when the store has refused. A release
    reads the row and later writes back what it read less the amount. Between any two statements others may run theirs. */
module QuotaRaces {
  import opened Common
  import opened QuotaUsage
  import QuotaGate

  /** Where a reservation stands. `Missed`: the update hit no row. `Absent`: nor did the look-up. `Retrying`: the insert
      failed on another's row. `Refused`, `Committed`: the store's answer, before the service's second reading.
      `Kept`, `Lost`: allowed and refused by the service while the amount is in the row. `Phantom`, `Denied`: allowed and
      refused while it is not. A release under way has `seen` a usage; `counted` says whether its amount is in the row. */
  datatype Phase =
    | Missed(last: bool)
    | Absent(last: bool)
    | Retrying
    | Refused
    | Committed
    | Kept
    | Lost
    | Phantom
    | Denied
    | Releasing(seen: nat, counted: bool)
    | Released

  datatype Claim = Claim(amount: nat, limit: nat, phase: Phase)

  datatype System = System(row: Option<nat>, claims: seq<Claim>)

  /** A new reservation runs its first update; a claim proceeds by its next statement. Callers release only what the
      service has allowed. */
  datatype Step =
    | Reserve(amount: nat, limit: nat)
    | Proceed(claim: nat)

  function Usage(row: Option<nat>): nat {
    if row.Some? then row.value else 0
  }

  function Used(s: System): nat {
    Usage(s.row)
  }

  /** The conditional update. */
  function Updated(row: Option<nat>, amount: nat, limit: nat, last: bool): (Option<nat>, Phase) {
    if row.Some? && row.value + amount <= limit then (Some(row.value + amount), Committed) else (row, Missed(last))
  }

  /** The row after a release that read `seen`; a value that did not change is not written. */
  function Written(row: Option<nat>, seen: nat, amount: nat): Option<nat> {
    var left := Max(seen - amount, 0);
    if left == seen then row else Some(left)
  }

  /** The next statement of a claim: the row and where the claim stands then. An insert answers with its own amount,
      which is not read again. */
  function Proceeded(row: Option<nat>, c: Claim): (Option<nat>, Phase) {
    match c.phase
    case Missed(last) => (row, if row.Some? then Refused else Absent(last))
    case Absent(last) => if row.None? then (Some(c.amount), Kept) else (row, if last then Refused else Retrying)
    case Retrying => Updated(row, c.amount, c.limit, true)
    case Refused => (row, if Usage(row) + c.amount <= c.limit then Phantom else Denied)
    case Committed => (row, if Usage(row) <= c.limit then Kept else Lost)
    case Kept => (row, if row.Some? then Releasing(row.value, true) else Released)
    case Phantom => (row, if row.Some? then Releasing(row.value, false) else Released)
    case Releasing(seen, _) => (Written(row, seen, c.amount), Released)
    case _ => (row, c.phase)
  }

  function Next(s: System, step: Step): System {
    match step
    case Reserve(amount, limit) =>
      if amount == 0 then s
      else
        var (row, phase) := if amount > limit then (s.row, Refused) else Updated(s.row, amount, limit, false);
        System(row, s.claims + [Claim(amount, limit, phase)])
    case Proceed(i) =>
      if i < |s.claims| then
        var (row, phase) := Proceeded(s.row, s.claims[i]);
        System(row, s.claims[i := s.claims[i].(phase := phase)])
      else s
  }

  function Run(s: System, steps: seq<Step>): System
    decreases |steps|
  {
    if steps == [] then s else Run(Next(s, steps[0]), steps[1..])
  }

  // ----- the statements are the store's and the service's -----

  function RowOf(rows: map<string, nat>, key: string): Option<nat> {
    if key in rows then Some(rows[key]) else None
  }

  predicate InStore(p: Phase) {
    p.Missed? || p.Absent? || p.Retrying?
  }

  function Rank(p: Phase): nat {
    match p
    case Missed(last) => if last then 2 else 5
    case Absent(last) => if last then 1 else 4
    case Retrying => 3
    case _ => 0
  }

  /** Claim i until the store has answered, with nobody in between. */
  function Answered(s: System, i: nat): (t: System)
    requires i < |s.claims|
    ensures |t.claims| == |s.claims| && !InStore(t.claims[i].phase)
    decreases Rank(s.claims[i].phase)
  {
    if InStore(s.claims[i].phase) then Answered(Next(s, Proceed(i)), i) else s
  }

  /** Without interruption a reservation is the database store's, and then the service's: allowed exactly when its
      amount is in the row. */
  lemma ReserveIsStoreReserve(rows: map<string, nat>, key: string, claims: seq<Claim>, amount: nat, limit: nat)
    requires amount > 0
    ensures var n := |claims|;
            var (after, projected) := DatabaseReserve(rows, key, amount, limit, NoRival);
            var t := Answered(Next(System(RowOf(rows, key), claims), Step.Reserve(amount, limit)), n);
            && t.row == RowOf(after, key)
            && t.claims == claims + [Claim(amount, limit, if projected.None? then Refused else if key in rows then Committed else Kept)]
            && (projected.Some? ==> projected.value == Used(t))
            && (projected.None? ==> Next(t, Proceed(n)).claims[n].phase.Denied?)
            && (projected.Some? && key in rows ==> Next(t, Proceed(n)).claims[n].phase.Kept?)
  {
    var n := |claims|;
    var s := Next(System(RowOf(rows, key), claims), Step.Reserve(amount, limit));
    if InStore(s.claims[n].phase) {
      var s1 := Next(s, Proceed(n));
      assert Answered(s, n) == Answered(s1, n);
      if InStore(s1.claims[n].phase) {
        assert Answered(s1, n) == Answered(Next(s1, Proceed(n)), n);
      }
    }
  }

  /** With a rival's insert where the store's call lets one in, the reservation is the database store's, too: a rival
      before the look-up makes it refuse, one before the insert makes it start over. */
  lemma RivalsAreStoreReserve(rows: map<string, nat>, key: string, claims: seq<Claim>, amount: nat, limit: nat, used: nat)
    requires 0 < amount <= limit && key !in rows
    ensures var n := |claims|;
            var missed := Next(System(None, claims), Step.Reserve(amount, limit));
            var absent := Next(missed, Proceed(n));
            var early := DatabaseReserve(rows, key, amount, limit, BeforeLookUp(used));
            var late := DatabaseReserve(rows, key, amount, limit, BeforeInsert(used));
            && missed.row == absent.row == None
            && Next(missed.(row := Some(used)), Proceed(n)).row == RowOf(early.0, key)
            && Next(missed.(row := Some(used)), Proceed(n)).claims[n].phase.Refused? && early.1.None?
            && Answered(absent.(row := Some(used)), n).row == RowOf(late.0, key)
            && Answered(absent.(row := Some(used)), n).claims[n].phase == if late.1.Some? then Committed else Refused
  {
    var n := |claims|;
    var missed := Next(System(None, claims), Step.Reserve(amount, limit));
    var s := Next(missed, Proceed(n)).(row := Some(used));
    var s1 := Next(s, Proceed(n));
    var s2 := Next(s1, Proceed(n));
    assert s1.claims[n].phase.Retrying? && Answered(s, n) == Answered(s1, n) == Answered(s2, n);
    if InStore(s2.claims[n].phase) {
      assert Answered(s2, n) == Answered(Next(s2, Proceed(n)), n);
    }
  }

  /** A read directly followed by its write is the database store's release. */
  lemma ReadThenWriteIsRelease(s: System, rows: map<string, nat>, key: string, i: nat)
    requires i < |s.claims| && (s.claims[i].phase.Kept? || s.claims[i].phase.Phantom?) && s.row == RowOf(rows, key)
    ensures var read := Next(s, Proceed(i));
            var t := if read.claims[i].phase.Releasing? then Next(read, Proceed(i)) else read;
            && t.row == RowOf(DatabaseRelease(rows, key, s.claims[i].amount).0, key)
            && t.claims == s.claims[i := s.claims[i].(phase := Released)]
  {
  }

  /** Inside the store's call a statement answers in three ways only: an insert, which is kept as it is; an update of the
      row by the amount, which is committed and read again; and a refusal, also after two lost inserts, which leaves the
      row and is read again, too. */
  lemma StoreAnswers(s: System, i: nat)
    requires i < |s.claims| && InStore(s.claims[i].phase)
    ensures var t := Next(s, Proceed(i));
            var c := s.claims[i];
            match t.claims[i].phase
            case Kept => s.row == None && t.row == Some(c.amount)
            case Committed => s.row.Some? && t.row == Some(s.row.value + c.amount) && s.row.value + c.amount <= c.limit
            case Refused => t.row == s.row && s.row.Some?
            case _ => InStore(t.claims[i].phase) && t.row == s.row
  {
  }

  /** The service decides on the second reading: after a commit it takes it for the usage with the amount, after a
      refusal for the usage without. */
  lemma ReadAgainIsDecision(s: System, i: nat, rule: QuotaGate.Rule, key: string)
    requires i < |s.claims| && (s.claims[i].phase.Committed? || s.claims[i].phase.Refused?) && s.claims[i].limit == rule.limit
    ensures var c := s.claims[i];
            var current := if c.phase.Committed? then Used(s) - c.amount else Used(s);
            var answer := Next(s, Proceed(i)).claims[i].phase;
            && (answer.Kept? || answer.Phantom? <==> QuotaGate.DecisionOf(rule, key, current, c.amount).allowed)
            && (answer.Kept? || answer.Lost? <==> c.phase.Committed?)
            && (answer.Phantom? || answer.Denied? <==> c.phase.Refused?)
  {
  }

  // ----- what the claims add up to -----

  /** What a claim has in the row. */
  function Weight(c: Claim): nat {
    match c.phase
    case Committed => c.amount
    case Kept => c.amount
    case Lost => c.amount
    case Releasing(_, counted) => if counted then c.amount else 0
    case _ => 0
  }

  /** The amounts that were committed and not given back. */
  function Outstanding(claims: seq<Claim>): nat {
    if claims == [] then 0 else Outstanding(claims[..|claims| - 1]) + Weight(claims[|claims| - 1])
  }

  lemma {:induction false} OutstandingUpdate(claims: seq<Claim>, i: nat, phase: Phase)
    requires i < |claims|
    ensures Outstanding(claims[i := claims[i].(phase := phase)]) ==
            Outstanding(claims) - Weight(claims[i]) + Weight(claims[i].(phase := phase))
    ensures Weight(claims[i]) <= Outstanding(claims)
    decreases |claims|
  {
    hide Weight;
    var n := |claims| - 1;
    var c := claims[i].(phase := phase);
    if i == n {
      assert claims[i := c][..n] == claims[..n];
    } else {
      OutstandingUpdate(claims[..n], i, phase);
      assert claims[i := c][..n] == claims[..n][i := c];
    }
  }

  lemma OutstandingAppend(claims: seq<Claim>, c: Claim)
    ensures Outstanding(claims + [c]) == Outstanding(claims) + Weight(c)
  {
    assert (claims + [c])[..|claims|] == claims;
  }

  // ----- the exact account -----

  /** How far a statement moves the row away from the claims: what a write-back leaves too much or too little, because
      the row is not what the release read, because the amount is more than it read, because it read zero and so writes
      nothing, or because the amount was never in the row. */
  function ProceedDrift(row: Option<nat>, c: Claim): int {
    if c.phase.Releasing? then
      (if c.amount == 0 || c.phase.seen == 0 then Usage(row) else Max(c.phase.seen - c.amount, 0)) - (Usage(row) - Weight(c))
    else if c.phase.Kept? && row.None? then c.amount
    else 0
  }

  function StepDrift(s: System, step: Step): int {
    if step.Proceed? && step.claim < |s.claims| then ProceedDrift(s.row, s.claims[step.claim]) else 0
  }

  function Drift(s: System, steps: seq<Step>): int
    decreases |steps|
  {
    if steps == [] then 0 else StepDrift(s, steps[0]) + Drift(Next(s, steps[0]), steps[1..])
  }

  lemma ProceedAccount(row: Option<nat>, c: Claim)
    ensures var (after, phase) := Proceeded(row, c);
            Usage(after) - Weight(c.(phase := phase)) == Usage(row) - Weight(c) + ProceedDrift(row, c)
  {
  }

  lemma StepAccount(s: System, step: Step)
    ensures Used(Next(s, step)) - Outstanding(Next(s, step).claims) == Used(s) - Outstanding(s.claims) + StepDrift(s, step)
  {
    hide Outstanding, Proceeded, ProceedDrift;
    match step
    case Reserve(amount, limit) =>
      if amount > 0 {
        var t := Next(s, step);
        OutstandingAppend(s.claims, t.claims[|s.claims|]);
      }
    case Proceed(i) =>
      if i < |s.claims| {
        hide Weight;
        ProceedAccount(s.row, s.claims[i]);
        OutstandingUpdate(s.claims, i, Proceeded(s.row, s.claims[i]).1);
      }
  }

  /** In every interleaving the row holds what it held at first, every amount that was committed and not given back,
      and the drift of the write-backs. */
  lemma {:induction false} UsageIsAccounted(s: System, steps: seq<Step>)
    ensures Used(Run(s, steps)) - Outstanding(Run(s, steps).claims) == Used(s) - Outstanding(s.claims) + Drift(s, steps)
    decreases |steps|
  {
    hide Next, StepDrift, Outstanding;
    if steps != [] {
      StepAccount(s, steps[0]);
      UsageIsAccounted(Next(s, steps[0]), steps[1..]);
    }
  }

  // ----- conservation -----

  predicate Balanced(s: System, base: nat) {
    Used(s) == base + Outstanding(s.claims)
  }

  predicate BalancedThroughout(s: System, base: nat, steps: seq<Step>)
    decreases |steps|
  {
    Balanced(s, base) && (steps == [] || BalancedThroughout(Next(s, steps[0]), base, steps[1..]))
  }

  /** Amounts are positive, what is in the row needs a row, and every release of such an amount read at least as much. */
  predicate Covered(s: System) {
    forall i | 0 <= i < |s.claims| :: CoveredClaim(s.row, s.claims[i])
  }

  predicate CoveredClaim(row: Option<nat>, c: Claim) {
    && c.amount > 0
    && (Weight(c) > 0 ==> row.Some?)
    && (c.phase.Releasing? && c.phase.counted ==> c.amount <= c.phase.seen)
  }

  /** A release whose amount is in the row finds the row as it read it when it writes. One whose amount is not read zero,
      or finds the row as it would leave it. */
  predicate TakesItsOwn(s: System, step: Step) {
    step.Proceed? && step.claim < |s.claims| && s.claims[step.claim].phase.Releasing? ==>
      var c := s.claims[step.claim];
      if c.phase.counted then s.row == Some(c.phase.seen)
      else c.phase.seen == 0 || Used(s) == Max(c.phase.seen - c.amount, 0)
  }

  predicate AllTakeTheirOwn(s: System, steps: seq<Step>)
    decreases |steps|
  {
    steps == [] || (TakesItsOwn(s, steps[0]) && AllTakeTheirOwn(Next(s, steps[0]), steps[1..]))
  }

  lemma StepKeepsCovered(s: System, base: nat, step: Step)
    requires Balanced(s, base) && Covered(s)
    ensures Covered(Next(s, step))
    ensures Balanced(Next(s, step), base) <==> TakesItsOwn(s, step)
  {
    StepAccount(s, step);
    hide Outstanding;
    var t := Next(s, step);
    assert s.row.Some? ==> t.row.Some?;
    if step.Proceed? && step.claim < |s.claims| {
      OutstandingUpdate(s.claims, step.claim, Released);
      assert CoveredClaim(s.row, s.claims[step.claim]);
    }
    forall i | 0 <= i < |t.claims|
      ensures CoveredClaim(t.row, t.claims[i])
    {
      assert i < |s.claims| ==> CoveredClaim(s.row, s.claims[i]);
    }
  }

  /** From a balanced state a run stays balanced throughout, so that the row holds its first value and every amount
      committed and not given back, exactly when every write-back takes its own: an amount that is in the row is taken
      off the usage that the release read, and one that is not is not taken off. */
  lemma {:induction false} UsageIsConservedIff(s: System, base: nat, steps: seq<Step>)
    requires Balanced(s, base) && Covered(s)
    ensures BalancedThroughout(s, base, steps) <==> AllTakeTheirOwn(s, steps)
    decreases |steps|
  {
    hide Next, Balanced, Covered, TakesItsOwn;
    if steps != [] {
      StepKeepsCovered(s, base, steps[0]);
      if Balanced(Next(s, steps[0]), base) {
        UsageIsConservedIff(Next(s, steps[0]), base, steps[1..]);
      }
    }
  }

  // ----- what the callers know -----

  /** Every caller has its answer, and no release is in progress. */
  predicate AtRest(s: System) {
    forall i | 0 <= i < |s.claims| :: Settled(s.claims[i].phase)
  }

  predicate Settled(p: Phase) {
    p.Kept? || p.Lost? || p.Phantom? || p.Denied? || p.Released?
  }

  /** The amounts of the claims in one of these phases. */
  function AmountIn(claims: seq<Claim>, phases: set<Phase>): nat {
    if claims == [] then 0
    else
      var last := claims[|claims| - 1];
      AmountIn(claims[..|claims| - 1], phases) + if last.phase in phases then last.amount else 0
  }

  /** What the callers have been allowed and have not released. */
  function HeldAmount(s: System): nat {
    AmountIn(s.claims, {Kept, Phantom})
  }

  function LostAmount(s: System): nat {
    AmountIn(s.claims, {Lost})
  }

  function PhantomAmount(s: System): nat {
    AmountIn(s.claims, {Phantom})
  }

  lemma {:induction false} SettledSplits(claims: seq<Claim>)
    requires forall i | 0 <= i < |claims| :: Settled(claims[i].phase)
    ensures Outstanding(claims) + AmountIn(claims, {Phantom}) == AmountIn(claims, {Kept, Phantom}) + AmountIn(claims, {Lost})
    decreases |claims|
  {
    if claims != [] {
      SettledSplits(claims[..|claims| - 1]);
    }
  }

  /** At rest, whatever happened: the row is off from what callers know they have by what was lost, by what was allowed
      without a commit, and by the drift. */
  lemma CallersAreOffBy(row: Option<nat>, steps: seq<Step>)
    requires AtRest(Run(System(row, []), steps))
    ensures var s := Run(System(row, []), steps);
            Used(s) == Usage(row) + HeldAmount(s) + LostAmount(s) - PhantomAmount(s) + Drift(System(row, []), steps)
  {
    UsageIsAccounted(System(row, []), steps);
    SettledSplits(Run(System(row, []), steps).claims);
  }

  lemma {:induction false} EndsBalanced(s: System, base: nat, steps: seq<Step>)
    requires BalancedThroughout(s, base, steps)
    ensures Balanced(Run(s, steps), base)
    decreases |steps|
  {
    hide Next, Balanced;
    if steps != [] {
      EndsBalanced(Next(s, steps[0]), base, steps[1..]);
    }
  }

  /** Once all callers have their answers, and when every write-back took its own, the row accounts for exactly what
      callers know they have if and only if as much was lost as was allowed without a commit. */
  lemma CallersAccountForUsageIff(row: Option<nat>, steps: seq<Step>)
    requires AtRest(Run(System(row, []), steps)) && AllTakeTheirOwn(System(row, []), steps)
    ensures var s := Run(System(row, []), steps);
            Used(s) == Usage(row) + HeldAmount(s) <==> LostAmount(s) == PhantomAmount(s)
  {
    UsageIsConservedIff(System(row, []), Usage(row), steps);
    EndsBalanced(System(row, []), Usage(row), steps);
    SettledSplits(Run(System(row, []), steps).claims);
  }
}
