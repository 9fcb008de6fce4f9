/** The cron scheduler: which slots are due, what a misfire policy plans, and how a scheduler iteration triggers the
    plan and moves the schedule's state. Slots are whole minutes since the epoch, in UTC. */
module Scheduler {
  import opened Arithmetic
  import opened Common

  // ----- cron fields -----

  /** One comma-separated item of a field, as `int` reads it. */
  datatype CronItem = Empty | Number(n: int) | NotANumber

  datatype CronField = Star | Items(items: seq<CronItem>)

  datatype TriggerConfig = TriggerConfig(hour: CronField, minute: CronField, misfireLimit: int)

  function ItemsMatch(items: seq<CronItem>, actual: int, minimum: int, maximum: int): Result<bool> {
    if items == [] then Ok(false)
    else
      match items[0]
      case Empty => ItemsMatch(items[1..], actual, minimum, maximum)
      case NotANumber => Err(ValueError)
      case Number(n) =>
        if n < minimum || n > maximum then Err(ValueError)
        else if n == actual then Ok(true)
        else ItemsMatch(items[1..], actual, minimum, maximum)
  }

  function FieldMatches(field: CronField, actual: int, minimum: int, maximum: int): Result<bool> {
    if field.Star? then Ok(true) else ItemsMatch(field.items, actual, minimum, maximum)
  }

  function Hour(slot: int): int {
    slot / 60 % 24
  }

  function Minute(slot: int): int {
    slot % 60
  }

  /** The minute field is only looked at when the hour matches. */
  function Matches(config: TriggerConfig, slot: int): Result<bool> {
    var hour := FieldMatches(config.hour, Hour(slot), 0, 23);
    if hour.Err? || !hour.value then hour else FieldMatches(config.minute, Minute(slot), 0, 59)
  }

  predicate FieldLists(field: CronField, actual: int) {
    field.Star? || Number(actual) in field.items
  }

  predicate ValidItem(item: CronItem, minimum: int, maximum: int) {
    item.Empty? || (item.Number? && minimum <= item.n <= maximum)
  }

  predicate ValidField(field: CronField, minimum: int, maximum: int) {
    field.Items? ==> forall item | item in field.items :: ValidItem(item, minimum, maximum)
  }

  lemma {:induction false} ItemsMatchExact(items: seq<CronItem>, actual: int, minimum: int, maximum: int)
    requires forall item | item in items :: ValidItem(item, minimum, maximum)
    ensures ItemsMatch(items, actual, minimum, maximum) == Ok(Number(actual) in items)
    decreases |items|
  {
    if items != [] {
      assert items[0] in items;
      ItemsMatchExact(items[1..], actual, minimum, maximum);
      assert items == [items[0]] + items[1..];
    }
  }

  /** A slot is minute m of hour h of day d. */
  predicate At(slot: int, d: int, h: int, m: int) {
    slot == 1440 * d + 60 * h + m && 0 <= h < 24 && 0 <= m < 60
  }

  lemma DaySplit(slot: int, d: int, h: int, m: int)
    requires At(slot, d, h, m)
    ensures Hour(slot) == h && Minute(slot) == m
  {
    assert slot / 60 == 24 * d + h;
  }

  /** A configuration whose numbers are in range matches the slots whose hour and minute it lists, and never fails. */
  lemma ValidConfigMatches(config: TriggerConfig, slot: int, d: int, h: int, m: int)
    requires ValidField(config.hour, 0, 23) && ValidField(config.minute, 0, 59) && At(slot, d, h, m)
    ensures Matches(config, slot) == Ok(FieldLists(config.hour, h) && FieldLists(config.minute, m))
  {
    DaySplit(slot, d, h, m);
    if config.hour.Items? {
      ItemsMatchExact(config.hour.items, h, 0, 23);
    }
    if config.minute.Items? {
      ItemsMatchExact(config.minute.items, m, 0, 59);
    }
  }

  /** The items before the k-th are in range and do not name the actual value. */
  predicate PassesOver(items: seq<CronItem>, k: nat, actual: int, minimum: int, maximum: int)
    requires k <= |items|
  {
    forall j | 0 <= j < k :: ValidItem(items[j], minimum, maximum) && items[j] != Number(actual)
  }

  /** A field is read from the left, up to the item that matches or is invalid: an item behind a match is never
      looked at, and an invalid one before it fails the match. */
  lemma {:induction false} FirstItemDecides(items: seq<CronItem>, k: nat, actual: int, minimum: int, maximum: int)
    requires minimum <= actual <= maximum && k <= |items| && PassesOver(items, k, actual, minimum, maximum)
    ensures k == |items| ==> ItemsMatch(items, actual, minimum, maximum) == Ok(false)
    ensures k < |items| && items[k] == Number(actual) ==> ItemsMatch(items, actual, minimum, maximum) == Ok(true)
    ensures k < |items| && !ValidItem(items[k], minimum, maximum) ==> ItemsMatch(items, actual, minimum, maximum) == Err(ValueError)
    decreases k
  {
    if k > 0 {
      assert items[0] != Number(actual) && ValidItem(items[0], minimum, maximum);
      assert forall j | 0 <= j < k - 1 :: items[1..][j] == items[j + 1];
      FirstItemDecides(items[1..], k - 1, actual, minimum, maximum);
    }
  }

  /** The minute field is only looked at in the hours the other one matches, so an invalid minute fails no slot of
      another hour. */
  lemma HourIsReadFirst(config: TriggerConfig, slot: int, d: int, h: int, m: int)
    requires At(slot, d, h, m)
    ensures var hour, minute := FieldMatches(config.hour, h, 0, 23), FieldMatches(config.minute, m, 0, 59);
            && (Matches(config, slot) == Ok(true) <==> hour == Ok(true) && minute == Ok(true))
            && (Matches(config, slot) == Ok(false) <==> hour == Ok(false) || (hour == Ok(true) && minute == Ok(false)))
            && (Matches(config, slot).Err? <==> hour.Err? || (hour == Ok(true) && minute.Err?))
  {
    DaySplit(slot, d, h, m);
  }

  // ----- due slots -----

  /** The scan of the n minutes after `after`, up to the first one whose match fails. */
  function Scan(config: TriggerConfig, after: int, n: nat): Result<seq<int>> {
    if n == 0 then Ok([])
    else
      var before := Scan(config, after, n - 1);
      if before.Err? then before
      else
        var m := Matches(config, after + n);
        if m.Err? then Err(m.error)
        else if m.value then Ok(before.value + [after + n])
        else before
  }

  /** A schedule that never ran is only looked at for the current minute. */
  function DueSlots(config: TriggerConfig, after: Option<int>, until: int): Result<seq<int>> {
    if after.None? then
      var m := Matches(config, until);
      if m.Err? then Err(m.error) else Ok(if m.value then [until] else [])
    else Scan(config, after.value, Max(until - after.value, 0))
  }

  lemma {:induction false} ScanExact(config: TriggerConfig, after: int, n: nat)
    ensures Scan(config, after, n).Ok? <==> forall m | after < m <= after + n :: Matches(config, m).Ok?
    ensures Scan(config, after, n).Ok? ==>
              && Increasing(Scan(config, after, n).value)
              && forall m :: m in Scan(config, after, n).value <==> after < m <= after + n && Matches(config, m) == Ok(true)
  {
    hide Matches;
    if n > 0 {
      ScanExact(config, after, n - 1);
      var m := Matches(config, after + n);
      var before := Scan(config, after, n - 1);
      if before.Ok? && m == Ok(true) {
        forall i | 0 <= i < |before.value|
          ensures before.value[i] < after + n
        {
          assert before.value[i] in before.value;
        }
      }
    }
  }

  /** Due slots are the ordered filter of the minutes in (after, until] by the hour and minute match. */
  lemma DueSlotsExact(config: TriggerConfig, after: int, until: int)
    ensures var due := DueSlots(config, Some(after), until);
            && (due.Ok? <==> forall m | after < m <= until :: Matches(config, m).Ok?)
            && (due.Ok? ==>
                  && Increasing(due.value)
                  && forall m :: m in due.value <==> after < m <= until && Matches(config, m) == Ok(true))
  {
    ScanExact(config, after, Max(until - after, 0));
  }

  // ----- plans -----

  datatype MisfirePolicy = Skip | RunOnce | CatchUpLimited | UnknownPolicy

  datatype DuePlan = DuePlan(slots: seq<int>, skippedUntil: Option<int>)

  function PlanOf(config: TriggerConfig, policy: MisfirePolicy, last: Option<int>, current: int): Result<DuePlan> {
    var due := DueSlots(config, last, current);
    if due.Err? then Err(due.error)
    else
      var slots := due.value;
      match policy
      case Skip =>
        if slots != [] && slots[|slots| - 1] == current then Ok(DuePlan([current], None))
        else Ok(DuePlan([], if slots == [] then None else Some(slots[|slots| - 1])))
      case RunOnce => Ok(DuePlan(if slots == [] then [] else [slots[|slots| - 1]], None))
      case CatchUpLimited =>
        var limit := Max(1, config.misfireLimit);
        Ok(DuePlan(if |slots| <= limit then slots else slots[..limit], None))
      case UnknownPolicy => Err(ValueError)
  }

  // ----- one iteration -----

  /** The first n planned slots: those whose trigger returned, and the last slot on record. */
  function ConsumeFirst(slots: seq<int>, n: nat, last: Option<int>, raises: int -> bool): (seq<int>, Option<int>)
    requires n <= |slots|
  {
    if n == 0 then ([], last)
    else
      var (triggered, before) := ConsumeFirst(slots, n - 1, last, raises);
      if raises(slots[n - 1]) then (triggered, before) else (triggered + [slots[n - 1]], Some(slots[n - 1]))
  }

  /** What an iteration leaves: the slots it triggered and the last slot on record. A plan that fails ends the loop
      before anything is triggered. */
  datatype Iterated = Iterated(triggered: seq<int>, last: Option<int>, failed: bool)

  /** `raises(slot)` says whether the trigger of the slot raises. */
  function Iterate(config: TriggerConfig, policy: MisfirePolicy, last: Option<int>, current: int,
                   raises: int -> bool): Iterated {
    var plan := PlanOf(config, policy, last, current);
    if plan.Err? then Iterated([], last, true)
    else
      var start := if plan.value.skippedUntil.Some? then plan.value.skippedUntil else last;
      var (triggered, after) := ConsumeFirst(plan.value.slots, |plan.value.slots|, start, raises);
      Iterated(triggered, after, false)
  }

  /** The slot is later than the last one on record, if any. */
  predicate After(last: Option<int>, slot: int) {
    last.Some? ==> last.value < slot
  }

  lemma DueSlotsAfterLast(config: TriggerConfig, last: Option<int>, current: int)
    requires DueSlots(config, last, current).Ok?
    ensures var due := DueSlots(config, last, current).value;
            Increasing(due) && forall i | 0 <= i < |due| :: After(last, due[i])
  {
    if last.Some? {
      DueSlotsExact(config, last.value, current);
      var due := DueSlots(config, last, current).value;
      assert forall i | 0 <= i < |due| :: due[i] in due;
    }
  }

  lemma PlanAfterLast(config: TriggerConfig, policy: MisfirePolicy, last: Option<int>, current: int)
    requires PlanOf(config, policy, last, current).Ok?
    ensures var plan := PlanOf(config, policy, last, current).value;
            && Increasing(plan.slots)
            && (forall i | 0 <= i < |plan.slots| :: After(last, plan.slots[i]))
            && (plan.skippedUntil.Some? ==> plan.slots == [] && After(last, plan.skippedUntil.value))
  {
    DueSlotsAfterLast(config, last, current);
  }

  lemma {:induction false} ConsumeInOrder(slots: seq<int>, n: nat, last: Option<int>, raises: int -> bool)
    requires n <= |slots| && Increasing(slots) && forall i | 0 <= i < |slots| :: After(last, slots[i])
    ensures var (triggered, after) := ConsumeFirst(slots, n, last, raises);
            && Increasing(triggered)
            && (forall i | 0 <= i < |triggered| :: After(last, triggered[i]) && triggered[i] in slots[..n] && !raises(triggered[i]))
            && (if triggered == [] then after == last else after == Some(triggered[|triggered| - 1]))
  {
    if n > 0 {
      ConsumeInOrder(slots, n - 1, last, raises);
      assert slots[..n] == slots[..n - 1] + [slots[n - 1]];
      var (triggered, before) := ConsumeFirst(slots, n - 1, last, raises);
      forall i | 0 <= i < |triggered|
        ensures triggered[i] < slots[n - 1]
      {
        var k :| 0 <= k < n - 1 && slots[k] == triggered[i];
      }
    }
  }

  /** The record never goes back. */
  predicate NotBefore(later: Option<int>, earlier: Option<int>) {
    earlier.Some? ==> later.Some? && earlier.value <= later.value
  }

  lemma IterateAdvances(config: TriggerConfig, policy: MisfirePolicy, last: Option<int>, current: int,
                        raises: int -> bool)
    ensures var it := Iterate(config, policy, last, current, raises);
            && Increasing(it.triggered)
            && (forall i | 0 <= i < |it.triggered| :: After(last, it.triggered[i]) && NotBefore(it.last, Some(it.triggered[i])))
            && NotBefore(it.last, last)
  {
    var plan := PlanOf(config, policy, last, current);
    if plan.Ok? {
      PlanAfterLast(config, policy, last, current);
      if plan.value.skippedUntil.None? {
        ConsumeInOrder(plan.value.slots, |plan.value.slots|, last, raises);
      }
    }
  }

  lemma {:induction false} ConsumedExact(slots: seq<int>, n: nat, last: Option<int>, raises: int -> bool)
    requires n <= |slots|
    ensures forall slot :: slot in ConsumeFirst(slots, n, last, raises).0 <==> slot in slots[..n] && !raises(slot)
  {
    if n > 0 {
      ConsumedExact(slots, n - 1, last, raises);
      assert slots[..n] == slots[..n - 1] + [slots[n - 1]];
    }
  }

  /** An iteration triggers the planned slots whose trigger does not raise, and no others. */
  lemma IterateTriggersPlanned(config: TriggerConfig, policy: MisfirePolicy, last: Option<int>, current: int,
                               raises: int -> bool)
    requires PlanOf(config, policy, last, current).Ok?
    ensures var it := Iterate(config, policy, last, current, raises);
            var plan := PlanOf(config, policy, last, current).value;
            && (forall slot :: slot in it.triggered <==> slot in plan.slots && !raises(slot))
            && (it.triggered != [] ==> it.last == Some(it.triggered[|it.triggered| - 1]))
            && (it.triggered == [] ==> it.last == if plan.skippedUntil.Some? then plan.skippedUntil else last)
  {
    PlanAfterLast(config, policy, last, current);
    var plan := PlanOf(config, policy, last, current).value;
    var start := if plan.skippedUntil.Some? then plan.skippedUntil else last;
    ConsumeInOrder(plan.slots, |plan.slots|, start, raises);
    ConsumedExact(plan.slots, |plan.slots|, start, raises);
    assert plan.slots[..|plan.slots|] == plan.slots;
  }

  /** An iteration fails exactly when a match fails or the policy is unknown; it then triggers nothing and keeps the
      record. */
  lemma FailureChangesNothing(config: TriggerConfig, policy: MisfirePolicy, last: Option<int>, current: int,
                              raises: int -> bool)
    ensures var it := Iterate(config, policy, last, current, raises);
            && (it.failed <==> policy.UnknownPolicy? || DueSlots(config, last, current).Err?)
            && (it.failed ==> it.triggered == [] && it.last == last)
    ensures policy.UnknownPolicy? && DueSlots(config, last, current).Ok? ==> PlanOf(config, policy, last, current) == Err(ValueError)
  {
    hide DueSlots;
  }

  /** The first iteration of a schedule, with nothing on record, triggers the current minute exactly when the fields
      list it, under every known policy, and puts it on record. A trigger that raises leaves the record empty. */
  lemma FirstRunTriggersNow(config: TriggerConfig, policy: MisfirePolicy, current: int, d: int, h: int, m: int,
                            raises: int -> bool)
    requires ValidField(config.hour, 0, 23) && ValidField(config.minute, 0, 59) && At(current, d, h, m)
    requires !policy.UnknownPolicy?
    ensures Iterate(config, policy, None, current, raises) ==
              if FieldLists(config.hour, h) && FieldLists(config.minute, m) && !raises(current)
              then Iterated([current], Some(current), false) else Iterated([], None, false)
  {
    ValidConfigMatches(config, current, d, h, m);
    assert ConsumeFirst([current], 0, None, raises) == ([], None);
    assert ConsumeFirst([current], 1, None, raises).0 == if raises(current) then [] else [current];
  }

  // ----- runs of iterations -----

  /** One turn of the scheduler loop: the minute it reads from the clock, and which triggers raise. */
  datatype Turn = Turn(current: int, raises: int -> bool)

  /** All slots triggered over a run, and the last slot on record. */
  function RunTurns(config: TriggerConfig, policy: MisfirePolicy, last: Option<int>, turns: seq<Turn>): (seq<int>,
                    Option<int>)
    decreases |turns|
  {
    if turns == [] then ([], last)
    else
      var it := Iterate(config, policy, last, turns[0].current, turns[0].raises);
      var (later, end) := RunTurns(config, policy, it.last, turns[1..]);
      (it.triggered + later, end)
  }

  /** Over any sequence of iterations, with any clock readings and any trigger exceptions, the slots whose trigger
      returned are strictly increasing: none is triggered twice. */
  lemma {:induction false} NoSlotTwice(config: TriggerConfig, policy: MisfirePolicy, last: Option<int>, turns: seq<Turn>)
    ensures var (triggered, end) := RunTurns(config, policy, last, turns);
            && Increasing(triggered)
            && (forall i | 0 <= i < |triggered| :: After(last, triggered[i]))
            && NotBefore(end, last)
    decreases |turns|
  {
    hide Iterate;
    if turns != [] {
      var it := Iterate(config, policy, last, turns[0].current, turns[0].raises);
      IterateAdvances(config, policy, last, turns[0].current, turns[0].raises);
      NoSlotTwice(config, policy, it.last, turns[1..]);
    }
  }

  // ----- catching up at a fixed minute -----

  function NeverRaises(): int -> bool {
    slot => false
  }

  lemma {:induction false} ConsumeAll(slots: seq<int>, n: nat, last: Option<int>)
    requires n <= |slots|
    ensures ConsumeFirst(slots, n, last, NeverRaises()) == (slots[..n], if n == 0 then last else Some(slots[n - 1]))
  {
    if n > 0 {
      ConsumeAll(slots, n - 1, last);
      assert slots[..n] == slots[..n - 1] + [slots[n - 1]];
    }
  }

  lemma {:induction false} IncreasingUnique(a: seq<int>, b: seq<int>)
    requires Increasing(a) && Increasing(b) && forall m :: m in a <==> m in b
    ensures a == b
    decreases |a|
  {
    assert a != [] ==> a[0] in a;
    assert b != [] ==> b[0] in b;
    if a != [] {
      var i :| 0 <= i < |b| && b[i] == a[0];
      var j :| 0 <= j < |a| && a[j] == b[0];
      assert a[0] == b[0];
      forall m
        ensures m in a[1..] <==> m in b[1..]
      {
        assert a == [a[0]] + a[1..] && b == [b[0]] + b[1..];
        assert m in a <==> m in b;
        assert m in a[1..] ==> m > a[0];
        assert m in b[1..] ==> m > b[0];
      }
      IncreasingUnique(a[1..], b[1..]);
      assert a == [a[0]] + a[1..] && b == [b[0]] + b[1..];
    }
  }

  /** Once the first j slots of a backlog are on record, the rest of it is due. */
  lemma BacklogShrinks(config: TriggerConfig, after: int, until: int, j: nat)
    requires DueSlots(config, Some(after), until).Ok?
    requires 0 < j <= |DueSlots(config, Some(after), until).value|
    ensures var due := DueSlots(config, Some(after), until).value;
            DueSlots(config, Some(due[j - 1]), until) == Ok(due[j..])
  {
    hide DueSlots;
    DueSlotsExact(config, after, until);
    var due := DueSlots(config, Some(after), until).value;
    assert due[j - 1] in due;
    DueSlotsExact(config, due[j - 1], until);
    var rest := DueSlots(config, Some(due[j - 1]), until).value;
    forall m
      ensures m in rest <==> m in due[j..]
    {
      if m in due && m > due[j - 1] {
        var i :| 0 <= i < |due| && due[i] == m;
        assert due[j..][i - j] == m;
      }
      if m in due[j..] {
        var i :| 0 <= i < |due[j..]| && due[j..][i] == m;
        assert due[i + j] == m && m in due;
      }
    }
    IncreasingUnique(rest, due[j..]);
  }

  function Repeat(current: int, times: nat): seq<Turn> {
    if times == 0 then [] else [Turn(current, NeverRaises())] + Repeat(current, times - 1)
  }

  lemma RepeatOnce(config: TriggerConfig, policy: MisfirePolicy, last: Option<int>, current: int, times: nat)
    requires times > 0
    ensures var it := Iterate(config, policy, last, current, NeverRaises());
            RunTurns(config, policy, last, Repeat(current, times)).0 ==
              it.triggered + RunTurns(config, policy, it.last, Repeat(current, times - 1)).0
  {
    hide Iterate;
    assert Repeat(current, times)[1..] == Repeat(current, times - 1);
  }

  lemma NoTurns(config: TriggerConfig, policy: MisfirePolicy, last: Option<int>, current: int)
    ensures RunTurns(config, policy, last, Repeat(current, 0)).0 == []
  {
  }

  /** What one iteration of `catch_up_limited` does with a backlog. */
  lemma CatchUpStep(config: TriggerConfig, after: int, current: int)
    requires DueSlots(config, Some(after), current).Ok?
    ensures var due := DueSlots(config, Some(after), current).value;
            var j := Min(|due|, Max(1, config.misfireLimit));
            var last := if due == [] then after else due[j - 1];
            && Iterate(config, CatchUpLimited, Some(after), current, NeverRaises()) == Iterated(due[..j], Some(last), false)
            && DueSlots(config, Some(last), current) == Ok(due[j..])
  {
    hide DueSlots;
    var due := DueSlots(config, Some(after), current).value;
    var j := Min(|due|, Max(1, config.misfireLimit));
    assert j == |due| ==> due[..j] == due;
    ConsumeAll(due[..j], j, Some(after));
    assert due[..j][..j] == due[..j];
    if due != [] {
      BacklogShrinks(config, after, current, j);
    } else {
      assert due[j..] == due;
    }
  }

  /** Under `catch_up_limited`, with a slot on record and no trigger exception, iterating at a fixed minute triggers
      the whole backlog once, in order, in ceil(n / limit) iterations, and nothing after that. */
  lemma {:induction false} CatchUpIsComplete(config: TriggerConfig, after: int, current: int, times: nat)
    requires DueSlots(config, Some(after), current).Ok?
    requires var due := DueSlots(config, Some(after), current).value;
             times >= CeilDiv(|due|, Max(1, config.misfireLimit))
    ensures RunTurns(config, CatchUpLimited, Some(after), Repeat(current, times)).0 == DueSlots(config, Some(after), current).value
    decreases times
  {
    hide DueSlots, Iterate, CeilDiv, RunTurns;
    var due := DueSlots(config, Some(after), current).value;
    var limit := Max(1, config.misfireLimit);
    CeilStep(|due|, limit);
    if times > 0 {
      CatchUpStep(config, after, current);
      RepeatOnce(config, CatchUpLimited, Some(after), current, times);
      var j := Min(|due|, limit);
      if |due| <= limit {
        CeilStep(0, limit);
      }
      CatchUpIsComplete(config, if due == [] then after else due[j - 1], current, times - 1);
      assert due == due[..j] + due[j..];
    } else {
      NoTurns(config, CatchUpLimited, Some(after), current);
    }
  }

  /** Fewer iterations trigger exactly the first `times * limit` slots: each one makes full progress. */
  lemma {:induction false} CatchUpProgress(config: TriggerConfig, after: int, current: int, times: nat)
    requires DueSlots(config, Some(after), current).Ok?
    requires times * Max(1, config.misfireLimit) <= |DueSlots(config, Some(after), current).value|
    ensures var due := DueSlots(config, Some(after), current).value;
            RunTurns(config, CatchUpLimited, Some(after), Repeat(current, times)).0 == due[..times * Max(1, config.misfireLimit)]
    decreases times
  {
    hide DueSlots, Iterate, Repeat, RunTurns;
    var due := DueSlots(config, Some(after), current).value;
    var limit := Max(1, config.misfireLimit);
    if times == 0 {
      NoTurns(config, CatchUpLimited, Some(after), current);
    } else {
      MulMonotone(0, times - 1, limit);
      assert times * limit == (times - 1) * limit + limit;
      CatchUpStep(config, after, current);
      RepeatOnce(config, CatchUpLimited, Some(after), current, times);
      CatchUpProgress(config, due[limit - 1], current, times - 1);
      assert due[..times * limit] == due[..limit] + due[limit..][..(times - 1) * limit];
    }
  }

  /** `run_once` triggers the newest slot of the backlog and no other, however often it iterates. */
  lemma {:induction false} RunOnceTriggersNewest(config: TriggerConfig, after: int, current: int, times: nat)
    requires DueSlots(config, Some(after), current).Ok? && times > 0
    ensures var due := DueSlots(config, Some(after), current).value;
            RunTurns(config, RunOnce, Some(after), Repeat(current, times)).0 == if due == [] then [] else [due[|due| - 1]]
    decreases times
  {
    hide DueSlots, RunTurns;
    var due := DueSlots(config, Some(after), current).value;
    var slots := if due == [] then [] else [due[|due| - 1]];
    ConsumeAll(slots, |slots|, Some(after));
    assert slots[..|slots|] == slots;
    var it := Iterate(config, RunOnce, Some(after), current, NeverRaises());
    assert it.triggered == slots;
    RepeatOnce(config, RunOnce, Some(after), current, times);
    NoTurns(config, RunOnce, it.last, current);
    if due != [] {
      BacklogShrinks(config, after, current, |due|);
      assert due[|due|..] == [];
    }
    if times > 1 {
      RunOnceTriggersNewest(config, it.last.value, current, times - 1);
    }
  }

  /** `skip` triggers the current minute when it is due and nothing else. With older slots due and the current minute
      not, the newest of them goes on record, so none of them is triggered later. */
  lemma SkipTriggersOnlyNow(config: TriggerConfig, last: Option<int>, current: int, raises: int -> bool)
    requires DueSlots(config, last, current).Ok?
    ensures var it := Iterate(config, Skip, last, current, raises);
            var due := DueSlots(config, last, current).value;
            && !it.failed
            && it.triggered == (if current in due && !raises(current) then [current] else [])
            && it.last == if current in due then (if raises(current) then last else Some(current))
                          else if due == [] then last else Some(due[|due| - 1])
  {
    var due := DueSlots(config, last, current).value;
    if last.Some? {
      DueSlotsExact(config, last.value, current);
    }
    if current in due {
      var i :| 0 <= i < |due| && due[i] == current;
      assert due[|due| - 1] in due;
      assert i == |due| - 1;
      assert ConsumeFirst([current], 0, last, raises) == ([], last);
      assert ConsumeFirst([current], 1, last, raises).0 == if raises(current) then [] else [current];
    } else {
      assert due != [] ==> due[|due| - 1] in due;
    }
  }

  // ----- the state repository and the loop -----

  datatype ScheduleState = ScheduleState(lastPlannedAt: int, lastTriggeredAt: Option<int>, lastCheckedAt: int)

  datatype ScheduleKey = ScheduleKey(scheduleId: string, tenantId: string)

  function PlannedAt(now: int): int {
    now / 60_000_000
  }

  /** A clock reading is planned at the minute it lies in. */
  lemma PlannedAtIsMinute(now: int, slot: int, rest: int)
    requires now == 60 * Seconds(1) * slot + rest && 0 <= rest < 60 * Seconds(1)
    ensures PlannedAt(now) == slot
  {
  }

  class ScheduleStateRepository {
    var states: map<ScheduleKey, ScheduleState>

    constructor ()
      ensures states == map[]
    {
      states := map[];
    }

    function LastPlanned(key: ScheduleKey): Option<int>
      reads this
    {
      if key in states then Some(states[key].lastPlannedAt) else None
    }

    function LastTriggered(key: ScheduleKey): Option<int>
      reads this
    {
      if key in states then states[key].lastTriggeredAt else None
    }

    method CronDueSlots(config: TriggerConfig, after: Option<int>, until: int) returns (slots: Result<seq<int>>)
      ensures slots == DueSlots(config, after, until)
    {
      if after.None? {
        var m := Matches(config, until);
        if m.Err? {
          return Err(m.error);
        }
        return Ok(if m.value then [until] else []);
      }
      var found := [];
      var cursor := after.value + 1;
      while cursor <= until
        invariant after.value + 1 <= cursor <= Max(until, after.value) + 1
        invariant Ok(found) == Scan(config, after.value, cursor - after.value - 1)
      {
        var m := Matches(config, cursor);
        if m.Err? {
          ScanFails(config, after.value, cursor - after.value, Max(until - after.value, 0));
          return Err(m.error);
        }
        if m.value {
          found := found + [cursor];
        }
        cursor := cursor + 1;
      }
      slots := Ok(found);
    }

    method PlanCronDueSlots(key: ScheduleKey, config: TriggerConfig, policy: MisfirePolicy,
                            now: int) returns (plan: Result<DuePlan>)
      ensures plan == PlanOf(config, policy, LastPlanned(key), PlannedAt(now))
    {
      var current := PlannedAt(now);
      var due := CronDueSlots(config, LastPlanned(key), current);
      if due.Err? {
        return Err(due.error);
      }
      var slots := due.value;
      match policy
      case Skip =>
        if slots != [] && slots[|slots| - 1] == current {
          return Ok(DuePlan([current], None));
        }
        return Ok(DuePlan([], if slots == [] then None else Some(slots[|slots| - 1])));
      case RunOnce =>
        return Ok(DuePlan(if slots == [] then [] else [slots[|slots| - 1]], None));
      case CatchUpLimited =>
        var limit := Max(1, config.misfireLimit);
        return Ok(DuePlan(if |slots| <= limit then slots else slots[..limit], None));
      case UnknownPolicy =>
        return Err(ValueError);
    }

    method UpsertState(key: ScheduleKey, plannedAt: int, checkedAt: int, triggeredAt: Option<int>)
      modifies this
      ensures states == old(states)[key := ScheduleState(
                plannedAt,
                if triggeredAt.Some? then triggeredAt else old(LastTriggered(key)),
                checkedAt)]
    {
      if key !in states {
        states := states[key := ScheduleState(plannedAt, triggeredAt, checkedAt)];
      } else {
        var state := states[key].(lastPlannedAt := plannedAt, lastCheckedAt := checkedAt);
        if triggeredAt.Some? {
          state := state.(lastTriggeredAt := triggeredAt);
        }
        states := states[key := state];
      }
    }

    method MarkTriggered(key: ScheduleKey, plannedAt: int, triggeredAt: int)
      modifies this
      ensures states == old(states)[key := ScheduleState(plannedAt, Some(triggeredAt), triggeredAt)]
    {
      UpsertState(key, plannedAt, triggeredAt, Some(triggeredAt));
    }

    method MarkSkippedUntil(key: ScheduleKey, plannedAt: int, checkedAt: int)
      modifies this
      ensures states == old(states)[key := ScheduleState(
                plannedAt, old(LastTriggered(key)), checkedAt)]
    {
      UpsertState(key, plannedAt, checkedAt, None);
    }
  }

  lemma {:induction false} ScanFails(config: TriggerConfig, after: int, k: nat, n: nat)
    requires 0 < k <= n && Scan(config, after, k).Err?
    ensures Scan(config, after, n) == Scan(config, after, k)
  {
    if k < n {
      ScanFails(config, after, k, n - 1);
    }
  }

  /** The scheduler loop's work on one schedule in one iteration: plan, skip, trigger, record. */
  method RunSchedule(repository: ScheduleStateRepository, key: ScheduleKey, config: TriggerConfig, policy: MisfirePolicy,
                     now: int, raises: int -> bool)
    returns (triggered: seq<int>, failures: nat, planFailed: bool)
    modifies repository
    ensures var it := Iterate(config, policy, old(repository.LastPlanned(key)), PlannedAt(now), raises);
            triggered == it.triggered && planFailed == it.failed && repository.LastPlanned(key) == it.last
    ensures triggered != [] ==>
              repository.states == old(repository.states)[
                key := ScheduleState(triggered[|triggered| - 1], Some(PlannedAt(now)), PlannedAt(now))]
    ensures triggered == [] ==>
              var last := repository.LastPlanned(key);
              if last == old(repository.LastPlanned(key)) then repository.states == old(repository.states)
              else
                && last.Some?
                && repository.states == old(repository.states)[
                     key := ScheduleState(last.value, old(repository.LastTriggered(key)), PlannedAt(now))]
    ensures planFailed || failures + |triggered| ==
              |PlanOf(config, policy, old(repository.LastPlanned(key)), PlannedAt(now)).value.slots|
  {
    hide PlanOf;
    triggered, failures, planFailed := [], 0, false;
    var current := PlannedAt(now);
    var planned := repository.PlanCronDueSlots(key, config, policy, now);
    if planned.Err? {
      return [], 0, true;
    }
    var plan := planned.value;
    PlanAfterLast(config, policy, repository.LastPlanned(key), current);
    if plan.skippedUntil.Some? {
      repository.MarkSkippedUntil(key, plan.skippedUntil.value, current);
    }
    ghost var start, before := repository.LastPlanned(key), repository.states;
    for n := 0 to |plan.slots|
      invariant (triggered, repository.LastPlanned(key)) == ConsumeFirst(plan.slots, n, start, raises)
      invariant failures + |triggered| == n
      invariant repository.states == if triggered == [] then before
                                     else
                                       old(repository.states)[
                                         key := ScheduleState(triggered[|triggered| - 1], Some(current), current)]
    {
      var slot := plan.slots[n];
      if raises(slot) {
        failures := failures + 1;
        continue;
      }
      repository.MarkTriggered(key, slot, current);
      triggered := triggered + [slot];
    }
  }
}
