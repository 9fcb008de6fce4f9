/** The database lock under real interleaving: one key, any number of processes, and between the read and the
    conditional write of an acquire any other statements of any other process. */
module LockRuns {
  import opened Common
  import opened Locks

  /** Where a process is inside `acquire`: what it read and the clock it captured before reading. */
  datatype Pending = Pending(owner: string, expiresAt: int, now: int, sawRow: bool, tries: nat)

  /** A successful acquire; `endsAt` is where its hold ended, once another one replaced it. */
  datatype Grant = Grant(owner: string, token: nat, start: int, replacedAt: Option<int>)

  datatype System = System(row: Option<Lock>, pending: map<nat, Pending>, grants: seq<Grant>)

  datatype Step =
    | Read(process: nat, owner: string, ttl: int, now: int)
    | Write(process: nat)
    | Retry(process: nat, ttl: int, now: int)
    | Release(owner: string, now: int)
    | Extend(owner: string, ttl: int, now: int)

  function Init(): System {
    System(None, map[], [])
  }

  predicate Expired(row: Lock, now: int) {
    row.expiresAt <= now
  }

  function CloseLast(grants: seq<Grant>, at: int): seq<Grant> {
    if grants == [] then []
    else grants[|grants| - 1 := grants[|grants| - 1].(replacedAt := Some(at))]
  }

  /** The read step: a held lock ends the call, otherwise the process goes on to its write. */
  function AfterRead(s: System, process: nat, owner: string, ttl: int, now: int, tries: nat): System {
    if s.row.Some? && !Expired(s.row.value, now) then s.(pending := s.pending - {process})
    else s.(pending := s.pending[process := Pending(owner, now + ttl, now, s.row.Some?, tries)])
  }

  function Next(s: System, step: Step): System {
    match step
    case Read(p, owner, ttl, now) =>
      if p in s.pending then s else AfterRead(s, p, owner, ttl, now, 1)
    case Write(p) =>
      if p !in s.pending then s
      else
        var w := s.pending[p];
        if !w.sawRow then
          if s.row.None? then
            // the insert wins
            System(Some(Lock(w.owner, w.expiresAt, 1)), s.pending - {p}, s.grants + [Grant(w.owner, 1, w.now, None)])
          else s // the primary key refuses the insert: the process may retry once
        else if s.row.Some? && Expired(s.row.value, w.now) then
          // the conditional update wins
          var token := s.row.value.fencingToken + 1;
          System(Some(Lock(w.owner, w.expiresAt, token)), s.pending - {p},
                 CloseLast(s.grants, s.row.value.expiresAt) + [Grant(w.owner, token, w.now, None)])
        else s.(pending := s.pending - {p}) // another process was faster
    case Retry(p, ttl, now) =>
      if p !in s.pending || s.pending[p].sawRow || s.row.None? then s
      else if s.pending[p].tries < 2 then AfterRead(s, p, s.pending[p].owner, ttl, now, s.pending[p].tries + 1)
      else s.(pending := s.pending - {p})
    case Release(owner, now) =>
      if s.row.Some? && s.row.value.ownerToken == owner && !Expired(s.row.value, now)
      then s.(row := Some(s.row.value.(expiresAt := now)))
      else s
    case Extend(owner, ttl, now) =>
      if s.row.Some? && s.row.value.ownerToken == owner && !Expired(s.row.value, now)
      then s.(row := Some(s.row.value.(expiresAt := now + ttl)))
      else s
  }

  function Run(s: System, steps: seq<Step>): System
    decreases |steps|
  {
    if steps == [] then s else Run(Next(s, steps[0]), steps[1..])
  }

  // ----- calls that nothing interrupts -----

  function RowOf(rows: map<string, Lock>, key: string): Option<Lock> {
    if key in rows then Some(rows[key]) else None
  }

  /** A read directly followed by its write is the provider's acquire: the same row, and a grant with the token of the
      handle exactly when the handle says that the lock was acquired. */
  lemma ReadThenWriteIsAcquire(s: System, rows: map<string, Lock>, key: string, p: nat, owner: string, ttlSeconds: int,
                               now: int)
    requires ValidArguments(key, ttlSeconds, Some(owner)) && p !in s.pending && s.row == RowOf(rows, key)
    ensures var t := Next(Next(s, Read(p, owner, Seconds(ttlSeconds), now)), Write(p));
            var (after, reply) := DatabaseCall(rows, Acquire(key, ttlSeconds, Some(owner), ""), now);
            && t.row == RowOf(after, key) && t.pending == s.pending
            && reply.Handle? && reply.handle.Some?
            && (if reply.handle.value.acquired
                then |t.grants| == |s.grants| + 1
                     && t.grants[|s.grants|] == Grant(owner, reply.handle.value.fencingToken, now, None)
                else t.grants == s.grants)
  {
  }

  /** The single statements of release and extend are the provider's calls. */
  lemma StatementsAreCalls(s: System, rows: map<string, Lock>, key: string, owner: string, ttlSeconds: int, now: int)
    requires ValidArguments(key, ttlSeconds, Some(owner)) && s.row == RowOf(rows, key)
    ensures Next(s, Step.Release(owner, now)).row == RowOf(DatabaseCall(rows, Call.Release(key, owner), now).0, key)
    ensures Next(s, Step.Extend(owner, Seconds(ttlSeconds), now)).row ==
            RowOf(DatabaseCall(rows, Call.Extend(key, owner, ttlSeconds), now).0, key)
  {
  }

  // ----- the invariant -----

  /** The row carries the newest grant, and every earlier grant was over when the next one started. */
  predicate Inv(s: System) {
    && (s.row.None? <==> s.grants == [])
    && (s.row.Some? ==>
          && s.row.value.fencingToken == |s.grants|
          && s.grants[|s.grants| - 1].owner == s.row.value.ownerToken
          && s.grants[|s.grants| - 1].replacedAt.None?)
    && (forall i | 0 <= i < |s.grants| :: s.grants[i].token == i + 1)
    && (forall i | 0 <= i < |s.grants| - 1 :: s.grants[i].replacedAt.Some? && s.grants[i].replacedAt.value <= s.grants[i + 1].start)
    && (s.row.None? ==> forall p | p in s.pending :: !s.pending[p].sawRow)
  }

  lemma NextInv(s: System, step: Step)
    requires Inv(s)
    ensures Inv(Next(s, step))
  {
  }

  lemma {:induction false} RunInv(s: System, steps: seq<Step>)
    requires Inv(s)
    ensures Inv(Run(s, steps))
    decreases |steps|
  {
    if steps != [] {
      NextInv(s, steps[0]);
      RunInv(Next(s, steps[0]), steps[1..]);
    }
  }

  // ----- the theorems -----

  /** Successful acquires carry strictly increasing fencing tokens, without a gap. */
  lemma FencingTokensIncrease(steps: seq<Step>)
    ensures var grants := Run(Init(), steps).grants;
            && (forall i, j | 0 <= i < j < |grants| :: grants[i].token < grants[j].token)
            && (forall i | 0 <= i < |grants| :: grants[i].token == i + 1)
  {
    RunInv(Init(), steps);
  }

  /** A grant starts no earlier, by the winner's captured clock, than the end of the hold it replaces: holds that
      are measured on one clock never overlap. */
  lemma HoldsDoNotOverlap(steps: seq<Step>, i: nat)
    requires i + 1 < |Run(Init(), steps).grants|
    ensures var grants := Run(Init(), steps).grants;
            grants[i].replacedAt.Some? && grants[i].replacedAt.value <= grants[i + 1].start
  {
    RunInv(Init(), steps);
  }

  /** An acquire wins exactly on the first insert, or on a row that is expired at the clock it captured before its
      read; then the row is its own, with a token above every earlier one. */
  lemma WriteWinsIff(steps: seq<Step>, p: nat)
    requires p in Run(Init(), steps).pending
    ensures var s := Run(Init(), steps);
            var w := s.pending[p];
            var t := Next(s, Write(p));
            && (|t.grants| == |s.grants| + 1 <==>
                  (if w.sawRow then s.row.Some? && s.row.value.expiresAt <= w.now else s.row.None?))
            && (|t.grants| == |s.grants| + 1 ==>
                  t.row == Some(Lock(w.owner, w.expiresAt, |s.grants| + 1)))
            && (|t.grants| != |s.grants| + 1 ==> t.row == s.row && t.grants == s.grants)
            && (p in t.pending <==> !w.sawRow && s.row.Some?)
            && t.pending - {p} == s.pending - {p}
  {
    RunInv(Init(), steps);
  }

  /** Of the processes that read the same state only one can win on it: once a write has won, every other process
      whose captured clock is before the new expiry loses. */
  lemma OneWinnerPerExpiry(steps: seq<Step>, p: nat, q: nat)
    requires p != q && p in Run(Init(), steps).pending && q in Run(Init(), steps).pending
    requires |Next(Run(Init(), steps), Write(p)).grants| > |Run(Init(), steps).grants|
    requires Run(Init(), steps).pending[q].now < Run(Init(), steps).pending[p].expiresAt
    ensures var t := Next(Run(Init(), steps), Write(p));
            Next(t, Write(q)).row == t.row && Next(t, Write(q)).grants == t.grants
  {
  }

  /** A read of a held lock ends the call, and its write never comes. Otherwise the process goes on with what it read and
      with the clock from before the read, and starts no second call meanwhile. */
  lemma ReadDecides(s: System, p: nat, owner: string, ttl: int, now: int)
    ensures var t := Next(s, Read(p, owner, ttl, now));
            var held := s.row.Some? && now < s.row.value.expiresAt;
            && t.row == s.row && t.grants == s.grants
            && (p in s.pending ==> t == s)
            && (p !in s.pending && held ==> t == s && Next(t, Write(p)) == s)
            && (p !in s.pending && !held ==>
                  && p in t.pending && t.pending[p].owner == owner && t.pending[p].expiresAt == now + ttl
                  && t.pending[p].now == now && (t.pending[p].sawRow <==> s.row.Some?) && t.pending[p].tries == 1)
  {
  }

  predicate TriedTwiceAtMost(s: System) {
    forall p | p in s.pending :: s.pending[p].tries == 1 || (s.pending[p].tries == 2 && s.row.Some?)
  }

  lemma {:induction false} RunTriesTwice(s: System, steps: seq<Step>)
    requires TriedTwiceAtMost(s)
    ensures TriedTwiceAtMost(Run(s, steps))
    decreases |steps|
  {
    if steps != [] {
      RunTriesTwice(Next(s, steps[0]), steps[1..]);
    }
  }

  /** Only a process whose insert lost has anything to retry. */
  lemma NothingToRetry(s: System, p: nat, ttl: int, now: int)
    requires p in s.pending ==> s.pending[p].sawRow || s.row == None
    ensures Next(s, Retry(p, ttl, now)) == s
  {
  }

  /** A run takes its steps one after the other. */
  lemma {:induction false} RunTakesEachStep(s: System, steps: seq<Step>, step: Step)
    ensures Run(s, []) == s && Run(s, steps + [step]) == Next(Run(s, steps), step)
    decreases |steps|
  {
    if steps == [] {
      assert [] + [step] == [step] && [step][1..] == [];
    } else {
      RunTakesEachStep(Next(s, steps[0]), steps[1..], step);
      assert (steps + [step])[1..] == steps[1..] + [step];
    }
  }

  /** Whose insert lost to another one reads once more, and gives up after a second insert is lost: it then either
      found the lock held, has a row to update, or ends its call. */
  lemma LostInsertRetriesOnce(steps: seq<Step>, p: nat, ttl: int, now: int)
    requires var s := Run(Init(), steps); p in s.pending && !s.pending[p].sawRow && s.row.Some?
    ensures var s := Run(Init(), steps);
            var t := Next(s, Retry(p, ttl, now));
            && Next(s, Write(p)) == s && t.row == s.row && t.grants == s.grants
            && (p in t.pending <==> s.pending[p].tries == 1 && s.row.value.expiresAt <= now)
            && (p in t.pending ==>
                  && t.pending[p].sawRow && t.pending[p].owner == s.pending[p].owner && t.pending[p].tries == 2
                  && t.pending[p].now == now && t.pending[p].expiresAt == now + ttl)
  {
    RunTriesTwice(Init(), steps);
  }

  /** Only the owner in the row can move its expiry, and nothing but an acquire moves its token or owner. */
  lemma OthersCannotTouch(s: System, step: Step)
    requires step.Release? || step.Extend?
    ensures s.row.Some? && s.row.value.ownerToken != step.owner ==> Next(s, step) == s
    ensures s.row.Some? ==> Next(s, step).row.Some?
                            && Next(s, step).row.value.fencingToken == s.row.value.fencingToken
                            && Next(s, step).row.value.ownerToken == s.row.value.ownerToken
  {
  }

  /** What a resource has seen that remembers the highest token of the writes so far. */
  function Highest(tokens: seq<nat>): nat {
    if tokens == [] then 0 else Max(Highest(tokens[..|tokens| - 1]), tokens[|tokens| - 1])
  }

  lemma {:induction false} HighestIsBound(tokens: seq<nat>, i: nat)
    requires i < |tokens|
    ensures tokens[i] <= Highest(tokens)
    decreases |tokens|
  {
    if i < |tokens| - 1 {
      HighestIsBound(tokens[..|tokens| - 1], i);
    }
  }

  /** Fencing: whoever was replaced holds a token below the one in the row, whatever happens afterwards, so a look at
      the row tells a stale holder; and once a later grant's token has reached a resource, a write under the earlier one
      is below the highest token seen there. */
  lemma StaleHolderIsFenced(steps: seq<Step>, early: nat, late: nat, writes: seq<nat>, k: nat)
    requires early < late < |Run(Init(), steps).grants|
    requires k < |writes| && writes[k] == Run(Init(), steps).grants[late].token
    ensures var s := Run(Init(), steps);
            s.row.Some? && s.grants[early].token < s.grants[late].token <= s.row.value.fencingToken
    ensures Run(Init(), steps).grants[early].token < Highest(writes)
  {
    RunInv(Init(), steps);
    HighestIsBound(writes, k);
  }
}
