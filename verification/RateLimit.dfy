/** The sliding-window rate limiter: one counter per window-long bucket, the previous bucket weighted by how much of
    it the window still covers. Weights are exact rationals; the clock is read once per check. */
module RateLimit {
  import opened Arithmetic
  import opened Common
  import opened Keys
  import opened MemoryCache

  datatype Rule = Rule(limit: int, windowSeconds: int, failClosed: bool)

  datatype Reason = Allowed | LimitExceeded | CacheUnavailable

  datatype Decision = Decision(allowed: bool, limit: int, current: int, remaining: int, retryAfter: int, reason: Reason)

  predicate ValidRule(rule: Rule) {
    rule.limit > 0 && rule.windowSeconds > 0
  }

  // ----- the arithmetic of one check -----

  function Bucket(now: int, w: int): int
    requires w > 0
  {
    now / w
  }

  function Elapsed(now: int, w: int): int
    requires w > 0
  {
    now - Bucket(now, w) * w
  }

  /** `ceil(previous_count * max((window - elapsed) / window, 0))`. */
  function Weighted(previous: int, elapsed: int, w: int): int
    requires w > 0
  {
    CeilDiv(previous * Max(w - elapsed, 0), w)
  }

  function Decide(rule: Rule, current: int, previous: int, now: int): Decision
    requires ValidRule(rule)
  {
    var w := Seconds(rule.windowSeconds);
    var effective := current + Weighted(previous, Elapsed(now, w), w);
    var allowed := effective <= rule.limit;
    Decision(allowed, rule.limit, effective, Max(rule.limit - effective, 0),
             if allowed then 0 else Max(1, CeilDiv(w - Elapsed(now, w), 1_000_000)),
             if allowed then Allowed else LimitExceeded)
  }

  function CacheFailure(rule: Rule): Decision {
    Decision(!rule.failClosed, rule.limit, 0, if rule.failClosed then 0 else rule.limit,
             if rule.failClosed then rule.windowSeconds else 0, CacheUnavailable)
  }

  function BucketKey(key: string, bucket: int): string {
    key + ":sliding:" + Decimal(bucket)
  }

  /** No two buckets of no two identities share a counter. */
  lemma BucketKeyInjective(keyA: string, keyB: string, a: int, b: int)
    requires BucketKey(keyA, a) == BucketKey(keyB, b)
    ensures keyA == keyB && a == b
  {
    DecimalHasNoColon(a);
    DecimalHasNoColon(b);
    assert keyA + ":sliding:" + Decimal(a) == (keyA + ":sliding") + ":" + Decimal(a);
    assert keyB + ":sliding:" + Decimal(b) == (keyB + ":sliding") + ":" + Decimal(b);
    LastColonSplits(keyA + ":sliding", keyB + ":sliding", Decimal(a), Decimal(b));
    assert keyA == (keyA + ":sliding")[..|keyA|] && |keyA + ":sliding"| == |keyB + ":sliding"|;
    DecimalInjective(a, b);
  }

  lemma BucketKeyNotBlank(key: string, b: int)
    ensures !Blank(BucketKey(key, b))
  {
    assert BucketKey(key, b)[|key|] == ':';
  }

  /** One check against the cache: the previous bucket is read, the current one incremented, allowed or not. */
  function Check<D>(entries: map<string, Entry<D>>, rule: Rule, key: string, amount: int, now: int):
    (map<string, Entry<D>>, Result<Decision>)
  {
    if amount <= 0 || !ValidRule(rule) then (entries, Err(ValidationError))
    else
      var bucket := Bucket(now, Seconds(rule.windowSeconds));
      var previous := Lookup(entries, BucketKey(key, bucket - 1), now);
      var read := Purge(entries, BucketKey(key, bucket - 1), now);
      if previous.Some? && previous.value.Document? then (read, Ok(CacheFailure(rule)))
      else
        var (after, count) := Incremented(read, BucketKey(key, bucket), amount, Some(rule.windowSeconds * 2), false, now);
        if count.Err? then (after, Ok(CacheFailure(rule)))
        else (after, Ok(Decide(rule, count.value, if previous.Some? then previous.value.n else 0, now)))
  }

  class SlidingWindowRateLimiter<D> {
    const cache: MemoryCacheProvider<D>

    constructor (cache: MemoryCacheProvider<D>)
      ensures this.cache == cache
    {
      this.cache := cache;
    }

    method CheckLimit(rule: Rule, key: string, amount: int, now: int) returns (result: Result<Decision>)
      requires ValidRule(rule)
      modifies cache
      ensures (cache.entries, result) == Check(old(cache.entries), rule, key, amount, now)
    {
      if amount <= 0 {
        return Err(ValidationError);
      }
      var w := Seconds(rule.windowSeconds);
      var bucket := Bucket(now, w);
      BucketKeyNotBlank(key, bucket);
      BucketKeyNotBlank(key, bucket - 1);
      var found := cache.Get(BucketKey(key, bucket - 1), now);
      if found.Err? || (found.value.Some? && found.value.value.Document?) {
        return Ok(CacheFailure(rule));
      }
      var previous := if found.value.Some? then found.value.value.n else 0;
      var count := cache.Incr(BucketKey(key, bucket), amount, Some(rule.windowSeconds * 2), false, now);
      if count.Err? {
        return Ok(CacheFailure(rule));
      }
      result := Ok(Decide(rule, count.value, previous, now));
    }
  }

  // ----- runs of checks for one rule and one identity -----

  datatype LogEntry = Logged(now: int, amount: int, allowed: bool)

  type Log = seq<LogEntry>

  /** Everything asked for in a bucket, allowed or not. */
  function Asked(log: Log, bucket: int, w: int): int
    requires w > 0
  {
    if log == [] then 0
    else
      var last := log[|log| - 1];
      Asked(log[..|log| - 1], bucket, w) + if Bucket(last.now, w) == bucket then last.amount else 0
  }

  predicate Ordered(log: Log) {
    && (forall i | 0 <= i < |log| :: log[i].amount > 0)
    && (forall i, j | 0 <= i < j < |log| :: log[i].now <= log[j].now)
  }

  /** The counters that a check at or after `clock` can read hold everything asked for in their bucket, and live
      until the end of the next bucket; a bucket nobody asked in has no counter. */
  ghost predicate CountersKept<D>(entries: map<string, Entry<D>>, key: string, log: Log, clock: int, w: int)
    requires w > 0
  {
    forall b | b >= Bucket(clock, w) - 1 :: CounterKept(entries, key, log, b, w)
  }

  ghost predicate CounterKept<D>(entries: map<string, Entry<D>>, key: string, log: Log, b: int, w: int)
    requires w > 0
  {
    if Asked(log, b, w) == 0 then BucketKey(key, b) !in entries
    else
      && BucketKey(key, b) in entries
      && entries[BucketKey(key, b)].value == Number(Asked(log, b, w))
      && entries[BucketKey(key, b)].expiresAt.Some?
      && entries[BucketKey(key, b)].expiresAt.value >= (b + 2) * w
  }

  lemma BucketBounds(now: int, w: int)
    requires w > 0
    ensures Bucket(now, w) * w <= now < (Bucket(now, w) + 1) * w
    ensures 0 <= Elapsed(now, w) < w
  {
  }

  lemma BucketMonotone(a: int, b: int, w: int)
    requires w > 0 && a <= b
    ensures Bucket(a, w) <= Bucket(b, w)
  {
    BucketBounds(a, w);
    BucketBounds(b, w);
    if Bucket(b, w) + 1 <= Bucket(a, w) {
      MulMonotone(Bucket(b, w) + 1, Bucket(a, w), w);
    }
  }

  /** A counter that is still read as the current or as the previous bucket has not expired. */
  lemma ReadableIsLive(now: int, b: int, w: int)
    requires w > 0 && b >= Bucket(now, w) - 1
    ensures now < (b + 2) * w
  {
    BucketBounds(now, w);
    MulMonotone(Bucket(now, w) + 1, b + 2, w);
  }

  lemma {:induction false} AskedNonNegative(log: Log, b: int, w: int)
    requires w > 0 && forall i | 0 <= i < |log| :: log[i].amount > 0
    ensures Asked(log, b, w) >= 0
    decreases |log|
  {
    if log != [] {
      AskedNonNegative(log[..|log| - 1], b, w);
    }
  }

  lemma AskedAppend(log: Log, e: LogEntry, b: int, w: int)
    requires w > 0
    ensures Asked(log + [e], b, w) == Asked(log, b, w) + if Bucket(e.now, w) == b then e.amount else 0
  {
    assert (log + [e])[..|log|] == log;
  }

  /** The decision that the whole history calls for, with no cache in between. */
  function Deserved(rule: Rule, log: Log, amount: int, now: int): Decision
    requires ValidRule(rule)
  {
    var w := Seconds(rule.windowSeconds);
    var b := Bucket(now, w);
    Decide(rule, Asked(log, b, w) + amount, Asked(log, b - 1, w), now)
  }

  lemma AllowedMeans(rule: Rule, log: Log, amount: int, now: int)
    requires ValidRule(rule)
    ensures var w := Seconds(rule.windowSeconds);
            var b := Bucket(now, w);
            Deserved(rule, log, amount, now).allowed
            <==> Asked(log, b, w) + amount + Weighted(Asked(log, b - 1, w), Elapsed(now, w), w) <= rule.limit
  {
  }

  lemma CeilIsLeast(a: int, b: int)
    requires b > 0
    ensures (CeilDiv(a, b) - 1) * b < a <= CeilDiv(a, b) * b
  {
  }

  /** The weight of the previous bucket is the least whole number that is not under the share of its count that lies in
      the window before now. */
  lemma WeightedIsLeast(previous: int, now: int, w: int)
    requires w > 0
    ensures var weight, covered := Weighted(previous, Elapsed(now, w), w), (Bucket(now, w) + 1) * w - now;
            (weight - 1) * w < previous * covered <= weight * w
  {
    hide Bucket, Elapsed, CeilDiv;
    BucketBounds(now, w);
    var covered := w - Elapsed(now, w);
    assert covered == (Bucket(now, w) + 1) * w - now by { SinceBucketBegan(now, w); }
    CeilIsLeast(previous * covered, w);
  }

  lemma SinceBucketBegan(now: int, w: int)
    requires w > 0
    ensures Elapsed(now, w) == now - Bucket(now, w) * w
  {
  }

  /** What a decision tells the caller: the demand it counted, and how much of the limit that leaves. */
  lemma DecisionReports(rule: Rule, log: Log, amount: int, now: int)
    requires ValidRule(rule)
    ensures var w := Seconds(rule.windowSeconds);
            var b := Bucket(now, w);
            var d := Deserved(rule, log, amount, now);
            && d.current == Asked(log, b, w) + amount + Weighted(Asked(log, b - 1, w), Elapsed(now, w), w)
            && d.limit == rule.limit
            && (d.allowed ==> d.current + d.remaining == rule.limit && d.retryAfter == 0 && d.reason == Allowed)
            && (!d.allowed ==> d.remaining == 0 && d.reason == LimitExceeded)
  {
  }

  lemma InBucket(now: int, b: int, w: int)
    requires w > 0 && b * w <= now < (b + 1) * w
    ensures Bucket(now, w) == b
  {
    QuotientUnique(now, b, now - b * w, w);
  }

  /** A refused check is told to wait for the least whole number of seconds that reaches the next bucket. */
  lemma RetryReachesNextBucket(rule: Rule, log: Log, amount: int, now: int)
    requires ValidRule(rule) && !Deserved(rule, log, amount, now).allowed
    ensures var w := Seconds(rule.windowSeconds);
            var wait := Deserved(rule, log, amount, now).retryAfter;
            && wait >= 1
            && Bucket(now + Seconds(wait), w) == Bucket(now, w) + 1
            && forall k | 0 <= k < wait :: Bucket(now + Seconds(k), w) == Bucket(now, w)
  {
    hide Bucket, CeilDiv, Asked, Weighted;
    var w := Seconds(rule.windowSeconds);
    var b := Bucket(now, w);
    BucketBounds(now, w);
    var left := w - Elapsed(now, w);
    CeilIsLeast(left, 1_000_000);
    var wait := CeilDiv(left, 1_000_000);
    assert (b + 1) * w == b * w + w && (b + 2) * w == b * w + 2 * w;
    InBucket(now + Seconds(wait), b + 1, w);
    forall k | 0 <= k < wait
      ensures Bucket(now + Seconds(k), w) == b
    {
      InBucket(now + Seconds(k), b, w);
    }
  }

  /** A check is refused outright when it asks for nothing or its rule is not one; nothing is counted then. */
  lemma CheckRefusedIff<D>(entries: map<string, Entry<D>>, rule: Rule, key: string, amount: int, now: int)
    ensures var (after, result) := Check(entries, rule, key, amount, now);
            && (result.Err? <==> amount < 1 || rule.limit < 1 || rule.windowSeconds < 1)
            && (result.Err? ==> result == Err(ValidationError) && after == entries)
  {
    hide Incremented, Purge, Lookup, Decide, Bucket, BucketKey;
  }

  /** A check that reads its counters adds its amount to the current bucket's, which lives two windows from the check
      that started it, and drops the previous bucket's when that has expired. Nothing else in the cache changes. */
  lemma CheckCounts<D>(entries: map<string, Entry<D>>, rule: Rule, key: string, amount: int, now: int, k: string)
    requires ValidRule(rule) && amount > 0
    requires Check(entries, rule, key, amount, now).1.value.reason != CacheUnavailable
    ensures var after := Check(entries, rule, key, amount, now).0;
            var b := Bucket(now, Seconds(rule.windowSeconds));
            var counter := BucketKey(key, b);
            if k == counter then
              var live := counter in entries && !Expired(entries[counter], now);
              && k in after
              && (live ==> entries[k].value.Number?)
              && after[k] == if live then Entry(Number(entries[k].value.n + amount), entries[k].expiresAt)
                             else Entry(Number(amount), Some(now + 2 * Seconds(rule.windowSeconds)))
            else if k == BucketKey(key, b - 1) && k in entries && Expired(entries[k], now) then k !in after
            else (k in after <==> k in entries) && (k in entries ==> after[k] == entries[k])
  {
    hide Bucket, BucketKey, Decide;
    var b := Bucket(now, Seconds(rule.windowSeconds));
    if BucketKey(key, b) == BucketKey(key, b - 1) {
      BucketKeyInjective(key, key, b, b - 1);
    }
  }

  /** A counter that holds no number makes the check fail: closed for a whole window, or open with the whole limit.
      Nothing is counted then. */
  lemma UnreadableCounterDecides<D>(entries: map<string, Entry<D>>, rule: Rule, key: string, amount: int, now: int,
                                    bucket: int)
    requires ValidRule(rule) && amount > 0
    requires var b := Bucket(now, Seconds(rule.windowSeconds)); bucket == b || bucket == b - 1
    requires BucketKey(key, bucket) in entries && entries[BucketKey(key, bucket)].value.Document?
    requires !Expired(entries[BucketKey(key, bucket)], now)
    ensures var (after, result) := Check(entries, rule, key, amount, now);
            && (forall k | k in after :: k in entries && after[k] == entries[k])
            && result.Ok? && result.value.reason == CacheUnavailable
            && result.value.limit == rule.limit && result.value.current == 0
            && (rule.failClosed ==>
                  !result.value.allowed && result.value.remaining == 0 && result.value.retryAfter == rule.windowSeconds)
            && (!rule.failClosed ==>
                  result.value.allowed && result.value.remaining == rule.limit && result.value.retryAfter == 0)
  {
    hide Bucket, BucketKey, Decide;
    var b := Bucket(now, Seconds(rule.windowSeconds));
    if BucketKey(key, b) == BucketKey(key, b - 1) {
      BucketKeyInjective(key, key, b, b - 1);
    }
  }

  /** No counter is lost while it can be read: the check decides on everything asked for in the two buckets. */
  lemma CheckSeesWholeHistory<D>(entries: map<string, Entry<D>>, rule: Rule, key: string, log: Log, clock: int,
                                 amount: int, now: int)
    requires ValidRule(rule) && amount > 0 && clock <= now
    requires forall i | 0 <= i < |log| :: log[i].amount > 0
    requires CountersKept(entries, key, log, clock, Seconds(rule.windowSeconds))
    ensures var (after, result) := Check(entries, rule, key, amount, now);
            && result == Ok(Deserved(rule, log, amount, now))
            && CountersKept(after, key, log + [Logged(now, amount, result.value.allowed)], now, Seconds(rule.windowSeconds))
  {
    hide BucketKey, Decide, Bucket, Asked;
    var w := Seconds(rule.windowSeconds);
    var b := Bucket(now, w);
    BucketMonotone(clock, now, w);
    ReadableIsLive(now, b - 1, w);
    ReadableIsLive(now, b, w);
    BucketBounds(now, w);
    AskedNonNegative(log, b, w);
    assert CounterKept(entries, key, log, b - 1, w);
    assert CounterKept(entries, key, log, b, w);
    if BucketKey(key, b) == BucketKey(key, b - 1) {
      BucketKeyInjective(key, key, b, b - 1);
    }
    var (after, result) := Check(entries, rule, key, amount, now);
    var e := Logged(now, amount, result.value.allowed);
    forall c | c >= b - 1
      ensures CounterKept(after, key, log + [e], c, w)
    {
      assert CounterKept(entries, key, log, c, w);
      AskedAppend(log, e, c, w);
      if c != b && BucketKey(key, c) == BucketKey(key, b) {
        BucketKeyInjective(key, key, c, b);
      }
      if c == b {
        assert Seconds(rule.windowSeconds * 2) == 2 * w;
        assert (b + 2) * w == b * w + 2 * w;
      }
    }
  }

  /** A check for another identity, under whatever rule, leaves the counters alone. */
  lemma OthersKeepCounters<D>(entries: map<string, Entry<D>>, key: string, log: Log, clock: int, w: int,
                              other: string, rule: Rule, amount: int, now: int)
    requires w > 0 && clock <= now && other != key
    requires CountersKept(entries, key, log, clock, w)
    ensures CountersKept(Check(entries, rule, other, amount, now).0, key, log, now, w)
  {
    hide BucketKey, Decide, Bucket, Asked;
    BucketMonotone(clock, now, w);
    forall b | b >= Bucket(now, w) - 1
      ensures CounterKept(Check(entries, rule, other, amount, now).0, key, log, b, w)
    {
      assert CounterKept(entries, key, log, b, w);
      forall c: int
        ensures BucketKey(key, b) != BucketKey(other, c)
      {
        if BucketKey(key, b) == BucketKey(other, c) {
          BucketKeyInjective(key, other, b, c);
        }
      }
    }
  }

  /** A check that somebody asks of the shared cache. */
  datatype Request = Request(rule: Rule, key: string, amount: int, now: int)

  /** The clock does not go back, and the key is always asked for under its own rule. */
  predicate OrderedRequests(clock: int, rule: Rule, key: string, requests: seq<Request>)
    decreases |requests|
  {
    requests != [] ==>
      && clock <= requests[0].now
      && (requests[0].key == key ==> requests[0].rule == rule)
      && OrderedRequests(requests[0].now, rule, key, requests[1..])
  }

  /** The log of one key in a run of checks, for any identities under any rules, against one shared cache. A check of
      an amount that is not positive raises and is not logged. */
  function RunLog<D>(entries: map<string, Entry<D>>, key: string, log: Log, requests: seq<Request>): Log
    decreases |requests|
  {
    if requests == [] then log
    else
      var r := requests[0];
      var (after, result) := Check(entries, r.rule, r.key, r.amount, r.now);
      RunLog(after, key, if r.key == key && result.Ok? then log + [Logged(r.now, r.amount, result.value.allowed)] else log,
             requests[1..])
  }

  /** Every decision in the log is the one its history called for. */
  predicate Faithful(rule: Rule, log: Log)
    requires ValidRule(rule)
  {
    forall k | 0 <= k < |log| :: log[k].allowed == Deserved(rule, log[..k], log[k].amount, log[k].now).allowed
  }

  lemma FaithfulAppend(rule: Rule, log: Log, amount: int, now: int, clock: int)
    requires ValidRule(rule) && Faithful(rule, log) && Ordered(log) && amount > 0 && clock <= now
    requires forall i | 0 <= i < |log| :: log[i].now <= clock
    ensures var longer := log + [Logged(now, amount, Deserved(rule, log, amount, now).allowed)];
            Faithful(rule, longer) && Ordered(longer) && forall i | 0 <= i < |longer| :: longer[i].now <= now
  {
    hide Deserved;
    var e := Logged(now, amount, Deserved(rule, log, amount, now).allowed);
    forall k | 0 <= k < |log + [e]|
      ensures (log + [e])[k].allowed == Deserved(rule, (log + [e])[..k], (log + [e])[k].amount, (log + [e])[k].now).allowed
    {
      assert (log + [e])[..k] == log[..k];
    }
    assert log[..|log|] == log;
  }

  /** Whoever else uses the cache in between, every check of the key decides on the key's true history. */
  lemma {:induction false} RunIsFaithful<D>(entries: map<string, Entry<D>>, rule: Rule, key: string, log: Log,
                                            clock: int, requests: seq<Request>)
    requires ValidRule(rule) && OrderedRequests(clock, rule, key, requests)
    requires Ordered(log) && (forall i | 0 <= i < |log| :: log[i].now <= clock) && Faithful(rule, log)
    requires CountersKept(entries, key, log, clock, Seconds(rule.windowSeconds))
    ensures Ordered(RunLog(entries, key, log, requests)) && Faithful(rule, RunLog(entries, key, log, requests))
    decreases |requests|
  {
    hide Check, Deserved, CountersKept;
    if requests != [] {
      var r := requests[0];
      var (after, result) := Check(entries, r.rule, r.key, r.amount, r.now);
      if r.key != key {
        OthersKeepCounters(entries, key, log, clock, Seconds(rule.windowSeconds), r.key, r.rule, r.amount, r.now);
        RunIsFaithful(after, rule, key, log, r.now, requests[1..]);
      } else if r.amount > 0 {
        CheckSeesWholeHistory(entries, rule, key, log, clock, r.amount, r.now);
        FaithfulAppend(rule, log, r.amount, r.now, clock);
        RunIsFaithful(after, rule, key, log + [Logged(r.now, r.amount, result.value.allowed)], r.now, requests[1..]);
      } else {
        CheckRefusedIff(entries, rule, key, r.amount, r.now);
        CountersStayKept(entries, key, log, clock, r.now, Seconds(rule.windowSeconds));
        RunIsFaithful(after, rule, key, log, r.now, requests[1..]);
      }
    }
  }

  lemma CountersStayKept<D>(entries: map<string, Entry<D>>, key: string, log: Log, clock: int, now: int, w: int)
    requires w > 0 && clock <= now && CountersKept(entries, key, log, clock, w)
    ensures CountersKept(entries, key, log, now, w)
  {
    hide Bucket, CounterKept;
    BucketMonotone(clock, now, w);
  }

  // ----- the bound -----

  /** The allowed amounts of the checks made in [from, from + w). */
  function AllowedIn(log: Log, from: int, w: int): int {
    if log == [] then 0
    else
      var last := log[|log| - 1];
      AllowedIn(log[..|log| - 1], from, w) + if last.allowed && from <= last.now < from + w then last.amount else 0
  }

  function AllowedInBucket(log: Log, bucket: int, w: int): int
    requires w > 0
  {
    if log == [] then 0
    else
      var last := log[|log| - 1];
      AllowedInBucket(log[..|log| - 1], bucket, w) + if last.allowed && Bucket(last.now, w) == bucket then last.amount else 0
  }

  lemma PrefixFaithful(rule: Rule, log: Log, n: nat)
    requires ValidRule(rule) && n <= |log| && Faithful(rule, log) && Ordered(log)
    ensures Faithful(rule, log[..n]) && Ordered(log[..n])
  {
    forall k | 0 <= k < n
      ensures log[..n][k].allowed == Deserved(rule, log[..n][..k], log[..n][k].amount, log[..n][k].now).allowed
    {
      assert log[..n][..k] == log[..k];
    }
  }

  lemma CeilNonNegative(a: int, b: int)
    requires a >= 0 && b > 0
    ensures CeilDiv(a, b) >= 0
  {
  }

  lemma MulNonNegative(a: int, b: int)
    requires a >= 0 && b >= 0
    ensures a * b >= 0
  {
  }

  lemma WeightedNonNegative(previous: int, elapsed: int, w: int)
    requires previous >= 0 && w > 0
    ensures Weighted(previous, elapsed, w) >= 0
  {
    MulNonNegative(previous, Max(w - elapsed, 0));
    CeilNonNegative(previous * Max(w - elapsed, 0), w);
  }

  /** No bucket lets through more than was asked in it, nor more than the limit. */
  lemma {:induction false} BucketWithinLimit(rule: Rule, log: Log, b: int)
    requires ValidRule(rule) && Faithful(rule, log) && Ordered(log)
    ensures var w := Seconds(rule.windowSeconds);
            0 <= AllowedInBucket(log, b, w) <= Min(rule.limit, Asked(log, b, w))
    decreases |log|
  {
    var w := Seconds(rule.windowSeconds);
    if log != [] {
      var n := |log| - 1;
      PrefixFaithful(rule, log, n);
      BucketWithinLimit(rule, log[..n], b);
      AskedNonNegative(log[..n], b - 1, w);
      WeightedNonNegative(Asked(log[..n], b - 1, w), Elapsed(log[n].now, w), w);
    }
  }

  lemma BucketNear(now: int, last: int, w: int)
    requires w > 0 && last - w < now <= last
    ensures Bucket(now, w) == Bucket(last, w) || Bucket(now, w) == Bucket(last, w) - 1
  {
    BucketMonotone(now, last, w);
    BucketMonotone(last - w, now, w);
    DivShift(last, -1, w);
  }

  /** Whatever is allowed in the window before a check was allowed in that check's bucket or in the one before. */
  lemma {:induction false} WindowSpansTwoBuckets(log: Log, from: int, last: int, w: int)
    requires w > 0 && (forall i | 0 <= i < |log| :: log[i].amount > 0 && log[i].now <= last) && last < from + w
    ensures AllowedIn(log, from, w) <= AllowedInBucket(log, Bucket(last, w) - 1, w) + AllowedInBucket(log, Bucket(last, w), w)
    decreases |log|
  {
    hide Bucket;
    if log != [] {
      var n := |log| - 1;
      WindowSpansTwoBuckets(log[..n], from, last, w);
      if from <= log[n].now {
        BucketNear(log[n].now, last, w);
      }
    }
  }

  /** m - ceil(m * (w - e) / w) == floor(m * e / w). */
  lemma ComplementWeight(m: int, e: int, w: int)
    requires w > 0
    ensures m - CeilDiv(m * (w - e), w) == m * e / w
  {
    assert m * (w - e) + w - 1 == m * w + (w - 1 - m * e) by {
      assert m * (w - e) == m * w - m * e;
    }
    DivShift(w - 1 - m * e, m, w);
    NegatedFloor(m * e, w);
  }

  /** The two-bucket bound: what the previous bucket let through plus what its weight leaves of the limit. */
  lemma TwoBucketBound(limit: int, asked: int, e: int, w: int)
    requires limit > 0 && asked >= 0 && 0 <= e < w
    ensures Min(limit, asked) + limit - Weighted(asked, e, w) <= limit + limit * e / w < 2 * limit
  {
    var m := Min(limit, asked);
    MulMonotone(m, asked, w - e);
    CeilMonotone(m * (w - e), asked * (w - e), w);
    ComplementWeight(m, e, w);
    MulMonotone(m, limit, e);
    FloorMonotone(m * e, limit * e, w);
    assert limit * e <= limit * (w - 1) by { MulMonotone(e, w - 1, limit); }
    assert limit * (w - 1) == (limit - 1) * w + (w - limit);
    LimitTimesElapsed(limit, e, w);
  }

  lemma LimitTimesElapsed(limit: int, e: int, w: int)
    requires limit > 0 && 0 <= e < w
    ensures limit * e / w < limit
  {
    MulStrict(e, w, limit);
    if limit * e / w >= limit {
      MulMonotone(limit, limit * e / w, w);
    }
  }

  lemma MulStrict(a: int, b: int, k: int)
    requires a < b && k > 0
    ensures k * a < k * b
  {
  }

  /** `m` is the last check of the window that was allowed. */
  predicate LastAllowed(log: Log, from: int, w: int, m: nat) {
    && m < |log| && log[m].allowed && from <= log[m].now < from + w
    && forall i | m < i < |log| :: !(log[i].allowed && from <= log[i].now < from + w)
  }

  lemma {:induction false} NothingAfterLast(log: Log, from: int, w: int, m: nat)
    requires LastAllowed(log, from, w, m)
    ensures AllowedIn(log, from, w) == AllowedIn(log[..m + 1], from, w)
    decreases |log|
  {
    if m + 1 == |log| {
      assert log[..m + 1] == log;
    } else {
      NothingAfterLast(log[..|log| - 1], from, w, m);
      assert log[..|log| - 1][..m + 1] == log[..m + 1];
    }
  }

  /** In any interval of one window length the allowed amounts total at most limit + floor(limit * e / window), where
      e is how far into its bucket the last allowed check came; hence less than twice the limit. */
  lemma WindowBound(rule: Rule, log: Log, from: int, m: nat)
    requires ValidRule(rule) && Faithful(rule, log) && Ordered(log)
    requires LastAllowed(log, from, Seconds(rule.windowSeconds), m)
    ensures var w := Seconds(rule.windowSeconds);
            AllowedIn(log, from, w) <= rule.limit + rule.limit * Elapsed(log[m].now, w) / w < 2 * rule.limit
  {
    var w := Seconds(rule.windowSeconds);
    hide AllowedIn, AllowedInBucket, Bucket, Elapsed, Asked, Deserved, Seconds;
    var now := log[m].now;
    var upto, before := log[..m + 1], log[..m];
    NothingAfterLast(log, from, w, m);
    BucketBounds(now, w);
    WindowSpansTwoBuckets(upto, from, now, w);
    PrefixFaithful(rule, log, m + 1);
    BucketWithinLimit(rule, upto, Bucket(now, w) - 1);
    BucketWithinLimit(rule, upto, Bucket(now, w));
    assert upto == before + [log[m]];
    AskedAppend(before, log[m], Bucket(now, w) - 1, w);
    AskedAppend(before, log[m], Bucket(now, w), w);
    AllowedMeans(rule, before, log[m].amount, now);
    AskedNonNegative(before, Bucket(now, w) - 1, w);
    TwoBucketBound(rule.limit, Asked(before, Bucket(now, w) - 1, w), Elapsed(now, w), w);
  }

  /** The bound for real runs: checks of any identities against one shared cache, which starts without this identity's
      counters. */
  lemma LimiterBound<D>(entries: map<string, Entry<D>>, rule: Rule, key: string, clock: int, requests: seq<Request>,
                        from: int, m: nat)
    requires ValidRule(rule) && OrderedRequests(clock, rule, key, requests)
    requires forall b :: BucketKey(key, b) !in entries
    requires LastAllowed(RunLog(entries, key, [], requests), from, Seconds(rule.windowSeconds), m)
    ensures var w := Seconds(rule.windowSeconds);
            var log := RunLog(entries, key, [], requests);
            AllowedIn(log, from, w) <= rule.limit + rule.limit * Elapsed(log[m].now, w) / w < 2 * rule.limit
  {
    hide BucketKey;
    RunIsFaithful(entries, rule, key, [], clock, requests);
    WindowBound(rule, RunLog(entries, key, [], requests), from, m);
  }

  // ----- the bound is reached -----

  /** The whole limit just before bucket k begins, and then as much as its weight leaves after `e`. */
  function Burst(rule: Rule, key: string, k: int, e: int): seq<Request>
    requires ValidRule(rule)
  {
    var w := Seconds(rule.windowSeconds);
    [Request(rule, key, rule.limit, k * w - 1), Request(rule, key, rule.limit * e / w, k * w + e)]
  }

  lemma BurstTimes(k: int, e: int, w: int)
    requires w > 0 && 0 <= e < w - 1
    ensures Bucket(k * w - 1, w) == k - 1 && Elapsed(k * w - 1, w) == w - 1
    ensures Bucket(k * w + e, w) == k && Elapsed(k * w + e, w) == e
  {
    assert (k - 1) * w == k * w - w;
    QuotientUnique(k * w - 1, k - 1, w - 1, w);
    QuotientUnique(k * w + e, k, e, w);
  }

  lemma NoWeight(e: int, w: int)
    requires w > 0
    ensures Weighted(0, e, w) == 0
  {
    QuotientUnique(w - 1, 0, w - 1, w);
  }

  lemma WeightLeaves(limit: int, e: int, w: int)
    requires w > 0 && 0 <= e < w
    ensures Weighted(limit, e, w) == limit - limit * e / w
  {
    ComplementWeight(limit, e, w);
  }

  /** For every rule, every bucket and every time e into it at which the bound leaves something beyond the limit, some
      run against a fresh cache reaches limit + floor(limit * e / window) within one window length. */
  lemma BoundIsReached(rule: Rule, key: string, k: int, e: int)
    requires ValidRule(rule)
    requires var w := Seconds(rule.windowSeconds); 0 <= e < w - 1 && rule.limit * e / w > 0
    ensures var w := Seconds(rule.windowSeconds);
            var log := RunLog<()>(map[], key, [], Burst(rule, key, k, e));
            && OrderedRequests(k * w - 1, rule, key, Burst(rule, key, k, e))
            && LastAllowed(log, k * w - 1, w, 1) && Elapsed(log[1].now, w) == e
            && AllowedIn(log, k * w - 1, w) == rule.limit + rule.limit * e / w
  {
    hide Bucket, Elapsed, Weighted, Deserved, Check, CountersKept, BucketKey, Seconds, Asked, AllowedIn;
    var w := Seconds(rule.windowSeconds);
    WindowPositive(rule);
    BurstTimes(k, e, w);
    var requests := Burst(rule, key, k, e);
    var a := rule.limit * e / w;
    MulMonotone(0, e, w);
    var first, second := Logged(k * w - 1, rule.limit, true), Logged(k * w + e, a, true);
    FirstPasses(rule, k, w);
    SecondPasses(rule, k, e, w);
    NoCounters<()>(key, k * w - 1, w);
    CheckSeesWholeHistory<()>(map[], rule, key, [], k * w - 1, rule.limit, k * w - 1);
    var after := Check<()>(map[], rule, key, rule.limit, k * w - 1).0;
    assert [] + [first] == [first];
    CheckSeesWholeHistory(after, rule, key, [first], k * w - 1, a, k * w + e);
    var rest := requests[1..];
    assert rest[0] == requests[1] && rest[1..] == [];
    assert OrderedRequests(k * w + e, rule, key, rest[1..]);
    assert OrderedRequests(k * w - 1, rule, key, rest);
    assert RunLog<()>(map[], key, [], requests) == RunLog(after, key, [first], rest);
    assert [first] + [second] == [first, second];
    assert RunLog(after, key, [first], rest) == [first, second];
    TwoAllowed(first, second, k * w - 1, w);
  }

  lemma WindowPositive(rule: Rule)
    requires ValidRule(rule)
    ensures Seconds(rule.windowSeconds) > 0
  {
  }

  lemma NoCounters<D>(key: string, clock: int, w: int)
    requires w > 0
    ensures CountersKept<D>(map[], key, [], clock, w)
  {
  }

  lemma FirstPasses(rule: Rule, k: int, w: int)
    requires ValidRule(rule) && w == Seconds(rule.windowSeconds)
    ensures Deserved(rule, [], rule.limit, k * w - 1).allowed
  {
    hide Seconds, Weighted, Deserved;
    WindowPositive(rule);
    AllowedMeans(rule, [], rule.limit, k * w - 1);
    NoWeight(Elapsed(k * w - 1, w), w);
  }

  lemma SecondPasses(rule: Rule, k: int, e: int, w: int)
    requires ValidRule(rule) && w == Seconds(rule.windowSeconds) && w > 0 && 0 <= e < w - 1
    ensures Deserved(rule, [Logged(k * w - 1, rule.limit, true)], rule.limit * e / w, k * w + e).allowed
  {
    hide Seconds, Weighted, Deserved, Bucket, Elapsed;
    var first := Logged(k * w - 1, rule.limit, true);
    BurstTimes(k, e, w);
    AllowedMeans(rule, [first], rule.limit * e / w, k * w + e);
    assert [] + [first] == [first];
    AskedAppend([], first, k, w);
    AskedAppend([], first, k - 1, w);
    WeightLeaves(rule.limit, e, w);
  }

  lemma TwoAllowed(first: LogEntry, second: LogEntry, from: int, w: int)
    requires first.allowed && second.allowed && from <= first.now < from + w && from <= second.now < from + w
    ensures AllowedIn([first, second], from, w) == first.amount + second.amount
    ensures LastAllowed([first, second], from, w, 1)
  {
    assert [first, second][..1] == [first];
    assert AllowedIn([first], from, w) == first.amount;
  }
}
