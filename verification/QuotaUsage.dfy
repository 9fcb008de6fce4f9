/** The two quota usage stores. The memory store keeps a dictionary; the database store keeps rows that a conditional
    update raises. Usage starts at zero, and `set_usage` refuses negative values, so usage is a natural number. */
module QuotaUsage {
  import opened Common

  datatype StoreKind = Memory | Database

  datatype Call =
    | GetUsage(key: string)
    | SetUsage(key: string, value: int)
    | Reserve(key: string, amount: int, limit: int)
    | Release(key: string, amount: int)

  function UsageOf(usage: map<string, nat>, key: string): nat {
    if key in usage then usage[key] else 0
  }

  predicate Accepted(call: Call) {
    && !Blank(call.key)
    && (call.SetUsage? ==> call.value >= 0)
    && (call.Reserve? ==> call.amount > 0 && call.limit >= 0)
    && (call.Release? ==> call.amount > 0)
  }

  // ----- the memory store -----

  function MemoryReserve(usage: map<string, nat>, key: string, amount: nat, limit: nat): (map<string, nat>, Option<int>) {
    var projected := UsageOf(usage, key) + amount;
    if projected > limit then (usage, None) else (usage[key := projected], Some(projected))
  }

  function MemoryRelease(usage: map<string, nat>, key: string, amount: nat): (map<string, nat>, Option<int>) {
    var updated := Max(UsageOf(usage, key) - amount, 0);
    (usage[key := updated], Some(updated))
  }

  // ----- the database store -----

  /** The row, if any, that another transaction inserts for the key while a reservation that found none to update is
      under way: before it looks for a row, or after that and before it inserts its own. */
  datatype Rival = NoRival | BeforeLookUp(used: nat) | BeforeInsert(used: nat)

  /** A row that the look-up finds ends the call; an insert that fails on a row makes it start over once. */
  function DatabaseReserve(rows: map<string, nat>, key: string, amount: nat, limit: nat, rival: Rival)
    : (map<string, nat>, Option<int>)
  {
    if amount > limit then (rows, None)
    else if key in rows then
      if rows[key] + amount <= limit then (rows[key := rows[key] + amount], Some(rows[key] + amount)) else (rows, None)
    else
      match rival
      case NoRival => (rows[key := amount], Some(amount))
      case BeforeLookUp(used) => (rows[key := used], None)
      case BeforeInsert(used) =>
        if used + amount <= limit then (rows[key := used + amount], Some(used + amount)) else (rows[key := used], None)
  }

  function DatabaseRelease(rows: map<string, nat>, key: string, amount: nat): (map<string, nat>, Option<int>) {
    if key !in rows then (rows, Some(0))
    else
      var updated := Max(rows[key] - amount, 0);
      (rows[key := updated], Some(updated))
  }

  // ----- calls on either store -----

  /** One call: the usage afterwards and the reply. `set_usage` replies nothing, a refused reservation replies None. */
  function Effect(kind: StoreKind, usage: map<string, nat>, call: Call): (map<string, nat>, Result<Option<int>>) {
    if !Accepted(call) then (usage, Err(ValidationError))
    else
      var (after, reply) :=
        match call
        case GetUsage(key) => (usage, Some(UsageOf(usage, key)))
        case SetUsage(key, value) => (usage[key := value], None)
        case Reserve(key, amount, limit) =>
          if kind.Memory? then MemoryReserve(usage, key, amount, limit) else DatabaseReserve(usage, key, amount, limit, NoRival)
        case Release(key, amount) =>
          if kind.Memory? then MemoryRelease(usage, key, amount) else DatabaseRelease(usage, key, amount);
      (after, Ok(reply))
  }

  /** The two stores are related when every key has the same usage, though the memory store may hold zeros for keys
      that have no row. */
  ghost predicate SameUsage(a: map<string, nat>, b: map<string, nat>) {
    forall key :: UsageOf(a, key) == UsageOf(b, key)
  }

  lemma CallsAgree(memory: map<string, nat>, rows: map<string, nat>, call: Call)
    requires SameUsage(memory, rows)
    ensures Effect(Memory, memory, call).1 == Effect(Database, rows, call).1
    ensures SameUsage(Effect(Memory, memory, call).0, Effect(Database, rows, call).0)
  {
    assert UsageOf(memory, call.key) == UsageOf(rows, call.key);
    forall key
      ensures UsageOf(Effect(Memory, memory, call).0, key) == UsageOf(Effect(Database, rows, call).0, key)
    {
      assert UsageOf(memory, key) == UsageOf(rows, key);
    }
  }

  /** A call is refused, and changes nothing, exactly for a blank key, a negative usage or limit, or an amount that is
      not positive. */
  lemma RefusedIff(kind: StoreKind, usage: map<string, nat>, call: Call)
    ensures var refused := || Blank(call.key)
                           || (call.SetUsage? && call.value < 0)
                           || (call.Reserve? && (call.amount < 1 || call.limit < 0))
                           || (call.Release? && call.amount < 1);
            && (Effect(kind, usage, call).1.Err? <==> refused)
            && (refused ==> Effect(kind, usage, call) == (usage, Err(ValidationError)))
  {
  }

  /** What is set is what is then got, on either store; reading changes nothing. */
  lemma SetThenGet(kind: StoreKind, usage: map<string, nat>, key: string, value: int, other: string)
    requires !Blank(key) && !Blank(other) && value >= 0
    ensures var (after, _) := Effect(kind, usage, SetUsage(key, value));
            Effect(kind, after, GetUsage(other)) ==
              (after, Ok(Some(if other == key then value else if other in usage then usage[other] else 0)))
  {
  }

  function Replies(kind: StoreKind, usage: map<string, nat>, calls: seq<Call>): seq<Result<Option<int>>>
    decreases |calls|
  {
    if calls == [] then []
    else
      var (after, reply) := Effect(kind, usage, calls[0]);
      [reply] + Replies(kind, after, calls[1..])
  }

  /** Call by call, over any history, the database store answers what the memory store answers. */
  lemma {:induction false} StoresAgree(memory: map<string, nat>, rows: map<string, nat>, calls: seq<Call>)
    requires SameUsage(memory, rows)
    ensures Replies(Memory, memory, calls) == Replies(Database, rows, calls)
    decreases |calls|
  {
    hide Effect;
    if calls != [] {
      CallsAgree(memory, rows, calls[0]);
      StoresAgree(Effect(Memory, memory, calls[0]).0, Effect(Database, rows, calls[0]).0, calls[1..]);
    }
  }

  /** A reservation that raced with a rival's insert ends as if it had come right after it, so that no rival's usage is
      lost and the limit holds for the sum, exactly when the rival came after the look-up or left no room: before the
      look-up a rival makes the store refuse an amount that fits. */
  lemma RaceIsSequentialIff(rows: map<string, nat>, key: string, amount: nat, limit: nat, rival: Rival)
    requires 0 < amount <= limit && key !in rows && !rival.NoRival?
    ensures var inserted := rows[key := rival.used];
            DatabaseReserve(rows, key, amount, limit, rival) == DatabaseReserve(inserted, key, amount, limit, NoRival)
            <==> rival.BeforeInsert? || rival.used + amount > limit
    ensures rival.BeforeInsert? ==>
              DatabaseReserve(rows, key, amount, limit, rival).1 == MemoryReserve(rows[key := rival.used], key, amount, limit).1
  {
    var after := rows[key := rival.used];
    assert after[key := rival.used + amount] == rows[key := rival.used + amount];
  }

  class MemoryQuotaUsageStore {
    var usage: map<string, nat>

    constructor ()
      ensures usage == map[]
    {
      usage := map[];
    }

    method GetUsage(key: string) returns (used: Result<int>)
      ensures (usage, if used.Ok? then Ok(Some(used.value)) else Err(used.error)) == Effect(Memory, usage, Call.GetUsage(key))
    {
      if Blank(key) {
        return Err(ValidationError);
      }
      used := Ok(if key in usage then usage[key] else 0);
    }

    method SetUsage(key: string, value: int) returns (done: Result<Option<int>>)
      modifies this
      ensures (usage, done) == Effect(Memory, old(usage), Call.SetUsage(key, value))
    {
      if Blank(key) || value < 0 {
        return Err(ValidationError);
      }
      usage := usage[key := value];
      done := Ok(None);
    }

    method Reserve(key: string, amount: int, limit: int) returns (projected: Result<Option<int>>)
      modifies this
      ensures (usage, projected) == Effect(Memory, old(usage), Call.Reserve(key, amount, limit))
    {
      if Blank(key) || amount <= 0 || limit < 0 {
        return Err(ValidationError);
      }
      var current := UsageOf(usage, key);
      if current + amount > limit {
        return Ok(None);
      }
      usage := usage[key := current + amount];
      projected := Ok(Some(current + amount));
    }

    method Release(key: string, amount: int) returns (updated: Result<Option<int>>)
      modifies this
      ensures (usage, updated) == Effect(Memory, old(usage), Call.Release(key, amount))
    {
      if Blank(key) || amount <= 0 {
        return Err(ValidationError);
      }
      var left := Max(UsageOf(usage, key) - amount, 0);
      usage := usage[key := left];
      updated := Ok(Some(left));
    }
  }

  class DatabaseQuotaUsageStore {
    var rows: map<string, nat>

    constructor ()
      ensures rows == map[]
    {
      rows := map[];
    }

    method SetUsage(key: string, value: int) returns (done: Result<Option<int>>)
      modifies this
      ensures (rows, done) == Effect(Database, old(rows), Call.SetUsage(key, value))
    {
      if Blank(key) || value < 0 {
        return Err(ValidationError);
      }
      rows := rows[key := value];
      done := Ok(None);
    }

    method Reserve(key: string, amount: int, limit: int, rival: Rival) returns (projected: Result<Option<int>>)
      modifies this
      ensures if !Accepted(Call.Reserve(key, amount, limit)) then rows == old(rows) && projected == Err(ValidationError)
              else var (after, reply) := DatabaseReserve(old(rows), key, amount, limit, rival);
                rows == after && projected == Ok(reply)
      ensures rival.NoRival? ==> (rows, projected) == Effect(Database, old(rows), Call.Reserve(key, amount, limit))
    {
      if Blank(key) || amount <= 0 || limit < 0 {
        return Err(ValidationError);
      }
      if amount > limit {
        return Ok(None);
      }
      var racing := rival;
      for attempt := 0 to 2
        invariant attempt == 0 ==> rows == old(rows) && racing == rival
        invariant attempt == 1 ==> key !in old(rows) && rival.BeforeInsert? && rows == old(rows)[key := rival.used] && racing == NoRival
        invariant attempt < 2
      {
        if key in rows && rows[key] + amount <= limit {
          rows := rows[key := rows[key] + amount];
          return Ok(Some(rows[key]));
        }
        if key !in rows && racing.BeforeLookUp? {
          rows := rows[key := racing.used];
        }
        if key in rows {
          return Ok(None);
        }
        if racing.NoRival? {
          rows := rows[key := amount];
          return Ok(Some(amount));
        }
        rows, racing := rows[key := racing.used], NoRival;
      }
      projected := Ok(None);
    }

    method Release(key: string, amount: int) returns (updated: Result<Option<int>>)
      modifies this
      ensures (rows, updated) == Effect(Database, old(rows), Call.Release(key, amount))
    {
      if Blank(key) || amount <= 0 {
        return Err(ValidationError);
      }
      if key !in rows {
        return Ok(Some(0));
      }
      rows := rows[key := Max(rows[key] - amount, 0)];
      updated := Ok(Some(rows[key]));
    }
  }
}
