/** The two lock providers. The memory provider deletes an entry when it is released or found expired and keeps the
    last fencing token of each key apart; the database provider keeps one row for ever and ends a lock by moving
    its expiry. */
module Locks {
  import opened Common

  datatype LockHandle = LockHandle(acquired: bool, lockKey: string, ownerToken: string, expiresAt: int, fencingToken: nat)

  /** A memory entry and a database row hold the same three values. */
  datatype Lock = Lock(ownerToken: string, expiresAt: int, fencingToken: nat)

  predicate ValidArguments(lockKey: string, ttlSeconds: int, ownerToken: Option<string>) {
    !Blank(lockKey) && (ownerToken.Some? ==> !Blank(ownerToken.value)) && ttlSeconds > 0
  }

  // ----- calls and their outcomes -----

  datatype Call =
    | Acquire(lockKey: string, ttlSeconds: int, requestedOwner: Option<string>, freshToken: string)
    | Release(lockKey: string, ownerToken: string)
    | Extend(lockKey: string, ownerToken: string, ttlSeconds: int)
    | Locked(lockKey: string)

  datatype Reply =
    | Invalid
    | Handle(handle: Option<LockHandle>)
    | Flag(flag: bool)

  predicate ValidCall(call: Call) {
    match call
    case Acquire(key, ttl, owner, _) => ValidArguments(key, ttl, owner)
    case Release(key, owner) => !Blank(key) && !Blank(owner)
    case Extend(key, owner, ttl) => ValidArguments(key, ttl, Some(owner))
    case Locked(key) => !Blank(key)
  }

  function Resolve(ownerToken: Option<string>, freshToken: string): string {
    if ownerToken.Some? then ownerToken.value else freshToken
  }

  // ----- the memory provider, as a function of its dictionaries -----

  datatype Memory = Memory(locks: map<string, Lock>, tokens: map<string, nat>)

  function Purged(m: Memory, key: string, now: int): Memory {
    if key in m.locks && m.locks[key].expiresAt <= now then m.(locks := m.locks - {key}) else m
  }

  function TokenOf(m: Memory, key: string): nat {
    if key in m.tokens then m.tokens[key] else 0
  }

  function MemoryCall(m0: Memory, call: Call, now: int): (Memory, Reply) {
    if !ValidCall(call) then (m0, Invalid)
    else
      var m := Purged(m0, call.lockKey, now);
      match call
      case Acquire(key, ttl, ownerToken, freshToken) =>
        var owner := Resolve(ownerToken, freshToken);
        if key in m.locks then
          (m, Handle(Some(LockHandle(false, key, owner, m.locks[key].expiresAt, m.locks[key].fencingToken))))
        else
          var token := TokenOf(m, key) + 1;
          var expiresAt := now + Seconds(ttl);
          (Memory(m.locks[key := Lock(owner, expiresAt, token)], m.tokens[key := token]),
           Handle(Some(LockHandle(true, key, owner, expiresAt, token))))
      case Release(key, owner) =>
        if key !in m.locks || m.locks[key].ownerToken != owner then (m, Flag(false))
        else (m.(locks := m.locks - {key}), Flag(true))
      case Extend(key, owner, ttl) =>
        if key !in m.locks || m.locks[key].ownerToken != owner then (m, Handle(None))
        else
          var expiresAt := now + Seconds(ttl);
          (m.(locks := m.locks[key := m.locks[key].(expiresAt := expiresAt)]),
           Handle(Some(LockHandle(true, key, owner, expiresAt, m.locks[key].fencingToken))))
      case Locked(key) => (m, Flag(key in m.locks))
  }

  // ----- the database provider, one call at a time, as a function of its table -----

  predicate HeldAt(rows: map<string, Lock>, key: string, now: int) {
    key in rows && rows[key].expiresAt > now
  }

  predicate HeldBy(rows: map<string, Lock>, key: string, owner: string, now: int) {
    HeldAt(rows, key, now) && rows[key].ownerToken == owner
  }

  function DatabaseCall(rows: map<string, Lock>, call: Call, now: int): (map<string, Lock>, Reply) {
    if !ValidCall(call) then (rows, Invalid)
    else
      match call
      case Acquire(key, ttl, ownerToken, freshToken) =>
        var owner := Resolve(ownerToken, freshToken);
        if HeldAt(rows, key, now) then
          (rows, Handle(Some(LockHandle(false, key, owner, rows[key].expiresAt, rows[key].fencingToken))))
        else
          var token := if key in rows then rows[key].fencingToken + 1 else 1;
          var expiresAt := now + Seconds(ttl);
          (rows[key := Lock(owner, expiresAt, token)], Handle(Some(LockHandle(true, key, owner, expiresAt, token))))
      case Release(key, owner) =>
        if HeldBy(rows, key, owner, now) then (rows[key := rows[key].(expiresAt := now)], Flag(true))
        else (rows, Flag(false))
      case Extend(key, owner, ttl) =>
        if HeldBy(rows, key, owner, now) then
          var expiresAt := now + Seconds(ttl);
          (rows[key := rows[key].(expiresAt := expiresAt)],
           Handle(Some(LockHandle(true, key, owner, expiresAt, rows[key].fencingToken))))
        else (rows, Handle(None))
      case Locked(key) => (rows, Flag(HeldAt(rows, key, now)))
  }

  // ----- the two providers are observably equal -----

  predicate RelatedAt(m: Memory, rows: map<string, Lock>, key: string, clock: int) {
    && TokenOf(m, key) == (if key in rows then rows[key].fencingToken else 0)
    && (key in m.locks ==> key in rows && (m.locks[key] == rows[key] || (m.locks[key].expiresAt <= clock && rows[key].expiresAt <= clock)))
    && (HeldAt(rows, key, clock) ==> key in m.locks && m.locks[key] == rows[key])
  }

  /** Same last token, and the same lock wherever one is still held at the clock. */
  ghost predicate Related(m: Memory, rows: map<string, Lock>, clock: int) {
    forall key :: RelatedAt(m, rows, key, clock)
  }

  lemma OtherKeysStayRelated(m: Memory, rows: map<string, Lock>, clock: int, call: Call, now: int, key: string)
    requires RelatedAt(m, rows, key, clock) && clock <= now && key != call.lockKey
    ensures RelatedAt(MemoryCall(m, call, now).0, DatabaseCall(rows, call, now).0, key, now)
  {
  }

  lemma SameKeyAgrees(m: Memory, rows: map<string, Lock>, clock: int, call: Call, now: int)
    requires RelatedAt(m, rows, call.lockKey, clock) && clock <= now
    ensures MemoryCall(m, call, now).1 == DatabaseCall(rows, call, now).1
    ensures RelatedAt(MemoryCall(m, call, now).0, DatabaseCall(rows, call, now).0, call.lockKey, now)
  {
  }

  /** One call of either provider gives the same reply and keeps the states related. */
  lemma CallsAgree(m: Memory, rows: map<string, Lock>, clock: int, call: Call, now: int)
    requires Related(m, rows, clock) && clock <= now
    ensures var (m', reply) := MemoryCall(m, call, now);
            var (rows', reply') := DatabaseCall(rows, call, now);
            reply == reply' && Related(m', rows', now)
  {
    hide MemoryCall, DatabaseCall;
    assert RelatedAt(m, rows, call.lockKey, clock);
    SameKeyAgrees(m, rows, clock, call, now);
    forall key
      ensures RelatedAt(MemoryCall(m, call, now).0, DatabaseCall(rows, call, now).0, key, now)
    {
      assert RelatedAt(m, rows, key, clock);
      if key != call.lockKey {
        OtherKeysStayRelated(m, rows, clock, call, now, key);
      }
    }
  }

  /** Both providers refuse a call, and change nothing, exactly when its key or its owner is blank or its time to live is
      not positive. An acquire may leave the owner out. */
  lemma RefusedIff(m: Memory, rows: map<string, Lock>, call: Call, now: int)
    ensures var refused :=
              match call
              case Acquire(key, ttl, owner, _) => Blank(key) || (owner.Some? && Blank(owner.value)) || ttl < 1
              case Release(key, owner) => Blank(key) || Blank(owner)
              case Extend(key, owner, ttl) => Blank(key) || Blank(owner) || ttl < 1
              case Locked(key) => Blank(key);
            && (MemoryCall(m, call, now).1 == Invalid <==> refused) && (refused ==> MemoryCall(m, call, now).0 == m)
            && (DatabaseCall(rows, call, now).1 == Invalid <==> refused) && (refused ==> DatabaseCall(rows, call, now).0 == rows)
  {
  }

  /** At time t the key is locked, and can be released or extended by this owner, up to this expiry and no longer. */
  ghost predicate LockedUntil(rows: map<string, Lock>, key: string, owner: string, expiresAt: int, fencingToken: nat) {
    && (forall t: int | !Blank(key) :: DatabaseCall(rows, Locked(key), t).1 == Flag(t < expiresAt))
    && (forall t: int | !Blank(key) && !Blank(owner) :: DatabaseCall(rows, Release(key, owner), t).1 == Flag(t < expiresAt))
    && (forall t: int, ttl: int | !Blank(key) && !Blank(owner) && ttl >= 1 ::
          DatabaseCall(rows, Extend(key, owner, ttl), t).1 ==
          Handle(if t < expiresAt then Some(LockHandle(true, key, owner, t + Seconds(ttl), fencingToken)) else None))
  }

  lemma RowLocks(rows: map<string, Lock>, key: string, owner: string, expiresAt: int, fencingToken: nat)
    requires key in rows && rows[key] == Lock(owner, expiresAt, fencingToken)
    ensures LockedUntil(rows, key, owner, expiresAt, fencingToken)
  {
  }

  /** A free key is locked for the time to live under the next token, for the requested owner or, without one, for a
      fresh one. A held one stays as it is, and the handle reports its expiry and token. */
  lemma AcquireGrants(rows: map<string, Lock>, key: string, ttl: int, requested: Option<string>, freshToken: string,
                      now: int)
    requires !Blank(key) && (requested.Some? ==> !Blank(requested.value)) && ttl >= 1
    ensures var (after, reply) := DatabaseCall(rows, Acquire(key, ttl, requested, freshToken), now);
            var owner := match requested case Some(o) => o case None => freshToken;
            var held := key in rows && now < rows[key].expiresAt;
            && reply.Handle? && reply.handle.Some?
            && var h := reply.handle.value;
            && h.acquired == !held && h.lockKey == key && h.ownerToken == owner
            && (held ==> after == rows && h.expiresAt == rows[key].expiresAt && h.fencingToken == rows[key].fencingToken)
            && (!held ==>
                  && h.expiresAt == now + Seconds(ttl)
                  && h.fencingToken == (if key in rows then rows[key].fencingToken else 0) + 1
                  && LockedUntil(after, key, owner, h.expiresAt, h.fencingToken)
                  && forall k | k in rows && k != key :: k in after && after[k] == rows[k])
  {
    hide LockedUntil;
    var (after, reply) := DatabaseCall(rows, Acquire(key, ttl, requested, freshToken), now);
    var h := reply.handle.value;
    if h.acquired {
      RowLocks(after, key, h.ownerToken, h.expiresAt, h.fencingToken);
    }
  }

  /** The holder's extension moves the expiry and its release ends the lock at once; for anybody else neither does
      anything. */
  lemma HolderDecides(rows: map<string, Lock>, key: string, owner: string, ttl: int, now: int)
    requires !Blank(key) && !Blank(owner) && ttl >= 1
    ensures var holds := key in rows && now < rows[key].expiresAt && rows[key].ownerToken == owner;
            var (extended, _) := DatabaseCall(rows, Extend(key, owner, ttl), now);
            var (released, _) := DatabaseCall(rows, Release(key, owner), now);
            && (!holds ==> extended == rows && released == rows)
            && (holds ==>
                  && LockedUntil(extended, key, owner, now + Seconds(ttl), rows[key].fencingToken)
                  && LockedUntil(released, key, owner, now, rows[key].fencingToken))
  {
    hide LockedUntil;
    if HeldBy(rows, key, owner, now) {
      RowLocks(DatabaseCall(rows, Extend(key, owner, ttl), now).0, key, owner, now + Seconds(ttl), rows[key].fencingToken);
      RowLocks(DatabaseCall(rows, Release(key, owner), now).0, key, owner, now, rows[key].fencingToken);
    }
  }

  datatype TimedCall = TimedCall(call: Call, now: int)

  predicate Nondecreasing(clock: int, calls: seq<TimedCall>)
    decreases |calls|
  {
    calls != [] ==> clock <= calls[0].now && Nondecreasing(calls[0].now, calls[1..])
  }

  function MemoryReplies(m: Memory, calls: seq<TimedCall>): seq<Reply>
    decreases |calls|
  {
    if calls == [] then []
    else
      var (next, reply) := MemoryCall(m, calls[0].call, calls[0].now);
      [reply] + MemoryReplies(next, calls[1..])
  }

  function DatabaseReplies(rows: map<string, Lock>, calls: seq<TimedCall>): seq<Reply>
    decreases |calls|
  {
    if calls == [] then []
    else
      var (next, reply) := DatabaseCall(rows, calls[0].call, calls[0].now);
      [reply] + DatabaseReplies(next, calls[1..])
  }

  /** From related states every sequence of calls under a clock that does not go back gets the same replies. */
  lemma {:induction false} RepliesAgree(m: Memory, rows: map<string, Lock>, clock: int, calls: seq<TimedCall>)
    requires Related(m, rows, clock) && Nondecreasing(clock, calls)
    ensures MemoryReplies(m, calls) == DatabaseReplies(rows, calls)
    decreases |calls|
  {
    if calls != [] {
      CallsAgree(m, rows, clock, calls[0].call, calls[0].now);
      var (next, reply) := MemoryCall(m, calls[0].call, calls[0].now);
      var (next', reply') := DatabaseCall(rows, calls[0].call, calls[0].now);
      RepliesAgree(next, next', calls[0].now, calls[1..]);
    }
  }

  /** Fresh providers cannot be told apart. */
  lemma ProvidersAgree(clock: int, calls: seq<TimedCall>)
    requires Nondecreasing(clock, calls)
    ensures MemoryReplies(Memory(map[], map[]), calls) == DatabaseReplies(map[], calls)
  {
    RepliesAgree(Memory(map[], map[]), map[], clock, calls);
  }

  /** A lock that is acquired, released and asked for. */
  function ReleasedAndAsked(key: string, owner: string, ttl: int, acquired: int, released: int,
                            asked: int): seq<TimedCall> {
    [TimedCall(Acquire(key, ttl, Some(owner), ""), acquired), TimedCall(Release(key, owner), released),
     TimedCall(Locked(key), asked)]
  }

  /** The clock must not go back: after a release the memory provider has forgotten the lock, while the row of the
      database provider comes alive again at any earlier reading, and at no other. */
  lemma ClockGoingBackTellsThemApart(key: string, owner: string, ttl: int, acquired: int, released: int, asked: int)
    requires ValidArguments(key, ttl, Some(owner)) && acquired <= released < acquired + Seconds(ttl)
    ensures var calls := ReleasedAndAsked(key, owner, ttl, acquired, released, asked);
            MemoryReplies(Memory(map[], map[]), calls) != DatabaseReplies(map[], calls) <==> asked < released
  {
    hide Seconds, Blank;
    var calls := ReleasedAndAsked(key, owner, ttl, acquired, released, asked);
    var m0, d0 := Memory(map[], map[]), map[];
    var (m1, r1) := MemoryCall(m0, calls[0].call, acquired);
    var (m2, r2) := MemoryCall(m1, calls[1].call, released);
    var (d1, q1) := DatabaseCall(d0, calls[0].call, acquired);
    var (d2, q2) := DatabaseCall(d1, calls[1].call, released);
    var later, last := calls[1..], calls[2..];
    assert later[0] == calls[1] && later[1..] == last && last[0] == calls[2] && last[1..] == [];
    assert m2.locks == map[] && d2[key].expiresAt == released;
    assert MemoryReplies(m2, last) == [Flag(false)] && DatabaseReplies(d2, last) == [Flag(asked < released)];
    assert r1 == q1 && r2 == q2;
    assert MemoryReplies(m0, calls) == [r1] + ([r2] + [Flag(false)]);
    assert DatabaseReplies(d0, calls) == [r1] + ([r2] + [Flag(asked < released)]);
    assert ([r1] + ([r2] + [Flag(false)]))[2] == Flag(false);
    assert ([r1] + ([r2] + [Flag(asked < released)]))[2] == Flag(asked < released);
  }

  /** The calls are made at these clock readings. */
  predicate MadeAt(calls: seq<TimedCall>, readings: seq<int>) {
    |calls| == |readings| && forall i | 0 <= i < |calls| :: calls[i].now == readings[i]
  }

  /** Nobody who calls fresh providers at these readings can tell them apart. */
  ghost predicate AgreeAt(readings: seq<int>) {
    forall calls: seq<TimedCall> | MadeAt(calls, readings) ::
      MemoryReplies(Memory(map[], map[]), calls) == DatabaseReplies(map[], calls)
  }

  /** From the second reading on the clock does not go back. */
  predicate NeverBackAfterFirst(readings: seq<int>) {
    forall i | 1 <= i < |readings| - 1 :: readings[i] <= readings[i + 1]
  }

  lemma {:induction false} ForwardCalls(calls: seq<TimedCall>, readings: seq<int>, clock: int)
    requires MadeAt(calls, readings) && (forall i | 0 <= i < |readings| - 1 :: readings[i] <= readings[i + 1])
    requires readings != [] ==> clock <= readings[0]
    ensures Nondecreasing(clock, calls)
    decreases |calls|
  {
    if calls != [] {
      ForwardCalls(calls[1..], readings[1..], calls[0].now);
    }
  }

  /** After one call on fresh providers, whatever its reading, they are related at every clock. */
  lemma FirstCallRelates(call: Call, now: int, clock: int)
    ensures var (m, reply) := MemoryCall(Memory(map[], map[]), call, now);
            var (rows, reply') := DatabaseCall(map[], call, now);
            reply == reply' && Related(m, rows, clock)
  {
  }

  lemma AgreeForward(calls: seq<TimedCall>, readings: seq<int>)
    requires MadeAt(calls, readings) && NeverBackAfterFirst(readings)
    ensures MemoryReplies(Memory(map[], map[]), calls) == DatabaseReplies(map[], calls)
  {
    hide MemoryCall, DatabaseCall, Related;
    if calls != [] {
      var clock := if |calls| > 1 then calls[1].now else 0;
      FirstCallRelates(calls[0].call, calls[0].now, clock);
      ForwardCalls(calls[1..], readings[1..], clock);
      RepliesAgree(MemoryCall(Memory(map[], map[]), calls[0].call, calls[0].now).0,
                   DatabaseCall(map[], calls[0].call, calls[0].now).0, clock, calls[1..]);
    }
  }

  /** A call that both providers refuse. */
  const REFUSED: Call := Locked("")

  /** An acquire that outlives reading b, refused calls, the release at reading b, the query after it, refused calls. */
  function Telltale(readings: seq<int>, b: nat): (calls: seq<TimedCall>)
    requires 1 <= b < |readings| - 1
    ensures MadeAt(calls, readings)
  {
    seq(|readings|, i requires 0 <= i < |readings| =>
      TimedCall(if i == 0 then Acquire("k", Max(readings[b] - readings[0], 0) + 1, Some("a"), "")
                else if i == b then Release("k", "a")
                else if i == b + 1 then Locked("k")
                else REFUSED, readings[i]))
  }

  lemma {:induction false} RefusedChangeNothing(m: Memory, rows: map<string, Lock>, calls: seq<TimedCall>, n: nat)
    requires n <= |calls| && forall i | 0 <= i < n :: calls[i].call == REFUSED
    requires MemoryReplies(m, calls[n..]) != DatabaseReplies(rows, calls[n..])
    ensures MemoryReplies(m, calls) != DatabaseReplies(rows, calls)
    decreases n
  {
    if n == 0 {
      assert calls[0..] == calls;
    } else {
      assert calls[1..][n - 1..] == calls[n..];
      RefusedChangeNothing(m, rows, calls[1..], n - 1);
      FirstReply(m, rows, calls);
    }
  }

  /** Replies that differ after a first call differ. */
  lemma FirstReply(m: Memory, rows: map<string, Lock>, calls: seq<TimedCall>)
    requires calls != []
    requires MemoryReplies(MemoryCall(m, calls[0].call, calls[0].now).0, calls[1..]) !=
             DatabaseReplies(DatabaseCall(rows, calls[0].call, calls[0].now).0, calls[1..])
    ensures MemoryReplies(m, calls) != DatabaseReplies(rows, calls)
  {
    hide MemoryCall, DatabaseCall;
    var x := MemoryReplies(MemoryCall(m, calls[0].call, calls[0].now).0, calls[1..]);
    var y := DatabaseReplies(DatabaseCall(rows, calls[0].call, calls[0].now).0, calls[1..]);
    assert MemoryReplies(m, calls)[1..] == x && DatabaseReplies(rows, calls)[1..] == y;
  }

  lemma TelltaleTells(readings: seq<int>, b: nat)
    requires 1 <= b < |readings| - 1 && readings[b + 1] < readings[b]
    ensures MemoryReplies(Memory(map[], map[]), Telltale(readings, b)) != DatabaseReplies(map[], Telltale(readings, b))
  {
    var calls := Telltale(readings, b);
    var ttl := Max(readings[b] - readings[0], 0) + 1;
    assert !IsSpace("k"[0]) && !IsSpace("a"[0]);
    var lock := Lock("a", readings[0] + Seconds(ttl), 1);
    var m, rows := Memory(map["k" := lock], map["k" := 1]), map["k" := lock];
    ReleasedThenAsked(m, rows, calls[b..], lock);
    assert calls[1..][b - 1..] == calls[b..];
    RefusedChangeNothing(m, rows, calls[1..], b - 1);
    assert MemoryCall(Memory(map[], map[]), calls[0].call, readings[0]).0 == m;
    assert DatabaseCall(map[], calls[0].call, readings[0]).0 == rows;
    FirstReply(Memory(map[], map[]), map[], calls);
  }

  lemma ReleasedThenAsked(m: Memory, rows: map<string, Lock>, calls: seq<TimedCall>, lock: Lock)
    requires |calls| >= 2 && calls[0].call == Release("k", "a") && calls[1].call == Locked("k")
    requires calls[1].now < calls[0].now < lock.expiresAt && lock.ownerToken == "a"
    requires m.locks == map["k" := lock] && rows == map["k" := lock]
    ensures MemoryReplies(m, calls) != DatabaseReplies(rows, calls)
  {
    assert !IsSpace("k"[0]) && !IsSpace("a"[0]);
    var m1, rows1 := MemoryCall(m, calls[0].call, calls[0].now).0, DatabaseCall(rows, calls[0].call, calls[0].now).0;
    assert m1.locks == map[] && rows1["k"].expiresAt == calls[0].now;
    var rest := calls[1..];
    assert MemoryReplies(m1, rest)[0] == Flag(false) && DatabaseReplies(rows1, rest)[0] == Flag(true);
    FirstReply(m, rows, calls);
  }

  /** Fresh providers cannot be told apart by calls at these readings exactly when, from the second reading on, the
      clock does not go back. */
  lemma AgreeIff(readings: seq<int>)
    ensures AgreeAt(readings) <==> NeverBackAfterFirst(readings)
  {
    if NeverBackAfterFirst(readings) {
      forall calls: seq<TimedCall> | MadeAt(calls, readings)
        ensures MemoryReplies(Memory(map[], map[]), calls) == DatabaseReplies(map[], calls)
      {
        AgreeForward(calls, readings);
      }
    } else {
      var b :| 1 <= b < |readings| - 1 && readings[b + 1] < readings[b];
      TelltaleTells(readings, b);
    }
  }

  // ----- the providers as classes -----

  class MemoryLockProvider {
    var locks: map<string, Lock>
    var fencingTokens: map<string, nat>

    constructor ()
      ensures State() == Memory(map[], map[])
    {
      locks, fencingTokens := map[], map[];
    }

    ghost function State(): Memory
      reads this
    {
      Memory(locks, fencingTokens)
    }

    method PurgeIfExpired(lockKey: string, now: int)
      modifies this
      ensures State() == Purged(old(State()), lockKey, now)
    {
      if lockKey in locks && locks[lockKey].expiresAt <= now {
        locks := locks - {lockKey};
      }
    }

    method AcquireLock(lockKey: string, ttlSeconds: int, ownerToken: Option<string>, freshToken: string, now: int)
      returns (result: Result<LockHandle>)
      modifies this
      ensures (State(), if result.Ok? then Handle(Some(result.value)) else Invalid)
              == MemoryCall(old(State()), Acquire(lockKey, ttlSeconds, ownerToken, freshToken), now)
    {
      if !ValidArguments(lockKey, ttlSeconds, ownerToken) {
        return Err(ValidationError);
      }
      var owner := Resolve(ownerToken, freshToken);
      PurgeIfExpired(lockKey, now);
      if lockKey in locks {
        var existing := locks[lockKey];
        return Ok(LockHandle(false, lockKey, owner, existing.expiresAt, existing.fencingToken));
      }
      var token := (if lockKey in fencingTokens then fencingTokens[lockKey] else 0) + 1;
      fencingTokens := fencingTokens[lockKey := token];
      var expiresAt := now + Seconds(ttlSeconds);
      locks := locks[lockKey := Lock(owner, expiresAt, token)];
      result := Ok(LockHandle(true, lockKey, owner, expiresAt, token));
    }

    method ReleaseLock(lockKey: string, ownerToken: string, now: int) returns (result: Result<bool>)
      modifies this
      ensures (State(), if result.Ok? then Flag(result.value) else Invalid)
              == MemoryCall(old(State()), Release(lockKey, ownerToken), now)
    {
      if Blank(lockKey) || Blank(ownerToken) {
        return Err(ValidationError);
      }
      PurgeIfExpired(lockKey, now);
      if lockKey !in locks || locks[lockKey].ownerToken != ownerToken {
        return Ok(false);
      }
      locks := locks - {lockKey};
      result := Ok(true);
    }

    method ExtendLock(lockKey: string, ownerToken: string, ttlSeconds: int,
                      now: int) returns (result: Result<Option<LockHandle>>)
      modifies this
      ensures (State(), if result.Ok? then Handle(result.value) else Invalid)
              == MemoryCall(old(State()), Extend(lockKey, ownerToken, ttlSeconds), now)
    {
      if !ValidArguments(lockKey, ttlSeconds, Some(ownerToken)) {
        return Err(ValidationError);
      }
      PurgeIfExpired(lockKey, now);
      if lockKey !in locks || locks[lockKey].ownerToken != ownerToken {
        return Ok(None);
      }
      var expiresAt := now + Seconds(ttlSeconds);
      locks := locks[lockKey := locks[lockKey].(expiresAt := expiresAt)];
      result := Ok(Some(LockHandle(true, lockKey, ownerToken, expiresAt, locks[lockKey].fencingToken)));
    }

    method IsLocked(lockKey: string, now: int) returns (result: Result<bool>)
      modifies this
      ensures (State(), if result.Ok? then Flag(result.value) else Invalid) == MemoryCall(old(State()), Locked(lockKey), now)
    {
      if Blank(lockKey) {
        return Err(ValidationError);
      }
      PurgeIfExpired(lockKey, now);
      result := Ok(lockKey in locks);
    }
  }

  class DatabaseLockProvider {
    var rows: map<string, Lock>

    constructor ()
      ensures rows == map[]
    {
      rows := map[];
    }

    /** No other session comes between the read and the conditional write; `LockRuns` takes them apart. */
    method AcquireLock(lockKey: string, ttlSeconds: int, ownerToken: Option<string>, freshToken: string, now: int)
      returns (result: Result<LockHandle>)
      modifies this
      ensures (rows, if result.Ok? then Handle(Some(result.value)) else Invalid)
              == DatabaseCall(old(rows), Acquire(lockKey, ttlSeconds, ownerToken, freshToken), now)
    {
      if !ValidArguments(lockKey, ttlSeconds, ownerToken) {
        return Err(ValidationError);
      }
      var owner := Resolve(ownerToken, freshToken);
      var expiresAt := now + Seconds(ttlSeconds);
      if lockKey in rows && rows[lockKey].expiresAt > now {
        var existing := rows[lockKey];
        return Ok(LockHandle(false, lockKey, owner, existing.expiresAt, existing.fencingToken));
      }
      if lockKey !in rows {
        rows := rows[lockKey := Lock(owner, expiresAt, 1)];
      } else if rows[lockKey].expiresAt <= now {
        rows := rows[lockKey := Lock(owner, expiresAt, rows[lockKey].fencingToken + 1)];
      }
      result := Ok(LockHandle(true, lockKey, owner, expiresAt, rows[lockKey].fencingToken));
    }

    method ReleaseLock(lockKey: string, ownerToken: string, now: int) returns (result: Result<bool>)
      modifies this
      ensures (rows, if result.Ok? then Flag(result.value) else Invalid)
              == DatabaseCall(old(rows), Release(lockKey, ownerToken), now)
    {
      if Blank(lockKey) || Blank(ownerToken) {
        return Err(ValidationError);
      }
      if lockKey !in rows || rows[lockKey].ownerToken != ownerToken || rows[lockKey].expiresAt <= now {
        return Ok(false);
      }
      rows := rows[lockKey := rows[lockKey].(expiresAt := now)];
      result := Ok(true);
    }

    method ExtendLock(lockKey: string, ownerToken: string, ttlSeconds: int,
                      now: int) returns (result: Result<Option<LockHandle>>)
      modifies this
      ensures (rows, if result.Ok? then Handle(result.value) else Invalid)
              == DatabaseCall(old(rows), Extend(lockKey, ownerToken, ttlSeconds), now)
    {
      if !ValidArguments(lockKey, ttlSeconds, Some(ownerToken)) {
        return Err(ValidationError);
      }
      if lockKey !in rows || rows[lockKey].ownerToken != ownerToken || rows[lockKey].expiresAt <= now {
        return Ok(None);
      }
      var expiresAt := now + Seconds(ttlSeconds);
      rows := rows[lockKey := rows[lockKey].(expiresAt := expiresAt)];
      result := Ok(Some(LockHandle(true, lockKey, ownerToken, expiresAt, rows[lockKey].fencingToken)));
    }

    method IsLocked(lockKey: string, now: int) returns (result: Result<bool>)
      ensures if Blank(lockKey) then result == Err(ValidationError) else result == Ok(HeldAt(rows, lockKey, now))
    {
      if Blank(lockKey) {
        return Err(ValidationError);
      }
      result := Ok(lockKey in rows && rows[lockKey].expiresAt > now);
    }
  }
}
