/** The in-memory cache: entries with an optional expiry, purged when they are found expired. */
module MemoryCache {
  import opened Common

  /** A cached integer, or a cached document of the client's own type. */
  datatype Value<+D> = Number(n: int) | Document(document: D)

  datatype Entry<+D> = Entry(value: Value<D>, expiresAt: Option<int>)

  predicate Expired<D>(entry: Entry<D>, now: int) {
    entry.expiresAt.Some? && entry.expiresAt.value <= now
  }

  /** What a reader sees at a given time. */
  function Lookup<D>(entries: map<string, Entry<D>>, key: string, now: int): Option<Value<D>> {
    if key in entries && !Expired(entries[key], now) then Some(entries[key].value) else None
  }

  function Purge<D>(entries: map<string, Entry<D>>, key: string, now: int): map<string, Entry<D>> {
    if key in entries && Expired(entries[key], now) then entries - {key} else entries
  }

  /** `_expires_at`: permanent, or a positive number of seconds from now, and never both. */
  function ExpiryOf(ttlSeconds: Option<int>, permanent: bool, now: int): Result<Option<int>> {
    if permanent then (if ttlSeconds.Some? then Err(ValidationError) else Ok(None))
    else if ttlSeconds.None? || ttlSeconds.value <= 0 then Err(ValidationError)
    else Ok(Some(now + Seconds(ttlSeconds.value)))
  }

  /** An increment starts a missing counter with the given expiry, and keeps the expiry of a live one. */
  function Incremented<D>(entries: map<string, Entry<D>>, key: string, amount: int, ttlSeconds: Option<int>,
                          permanent: bool, now: int):
    (map<string, Entry<D>>, Result<int>)
  {
    var purged := Purge(entries, key, now);
    if key !in purged then
      var expiry := ExpiryOf(ttlSeconds, permanent, now);
      if expiry.Err? then (purged, Err(expiry.error))
      else (purged[key := Entry(Number(amount), expiry.value)], Ok(amount))
    else
      match purged[key].value
      case Document(_) => (purged, Err(Conflict))
      case Number(n) => (purged[key := Entry(Number(n + amount), purged[key].expiresAt)], Ok(n + amount))
  }

  /** An entry needs a positive time to live or none at all, and is read up to the moment that ends. */
  lemma EntryLives<D>(entries: map<string, Entry<D>>, key: string, value: Value<D>, ttlSeconds: Option<int>,
                      permanent: bool, start: int, now: int)
    ensures ExpiryOf(ttlSeconds, permanent, start).Ok? <==>
            if permanent then ttlSeconds == None else ttlSeconds.Some? && ttlSeconds.value >= 1
    ensures ExpiryOf(ttlSeconds, permanent, start).Err? ==> ExpiryOf(ttlSeconds, permanent, start) == Err(ValidationError)
    ensures ExpiryOf(ttlSeconds, permanent, start).Ok? ==>
              var after := entries[key := Entry(value, ExpiryOf(ttlSeconds, permanent, start).value)];
              Lookup(after, key, now) == if permanent || now < start + Seconds(ttlSeconds.value) then Some(value) else None
  {
  }

  class MemoryCacheProvider<D> {
    var entries: map<string, Entry<D>>

    constructor ()
      ensures entries == map[]
    {
      entries := map[];
    }

    method Get(key: string, now: int) returns (result: Result<Option<Value<D>>>)
      modifies this
      ensures Blank(key) ==> result == Err(ValidationError) && entries == old(entries)
      ensures !Blank(key) ==> result == Ok(Lookup(old(entries), key, now)) && entries == Purge(old(entries), key, now)
    {
      if Blank(key) {
        return Err(ValidationError);
      }
      if key !in entries {
        return Ok(None);
      }
      if Expired(entries[key], now) {
        entries := entries - {key};
        return Ok(None);
      }
      result := Ok(Some(entries[key].value));
    }

    method Set(key: string, value: Value<D>, ttlSeconds: Option<int>, permanent: bool,
               now: int) returns (result: Result<()>)
      modifies this
      ensures var expiry := ExpiryOf(ttlSeconds, permanent, now);
              if Blank(key) || expiry.Err? then result == Err(ValidationError) && entries == old(entries)
              else result == Ok(()) && entries == old(entries)[key := Entry(value, expiry.value)]
    {
      if Blank(key) {
        return Err(ValidationError);
      }
      var expiry := ExpiryOf(ttlSeconds, permanent, now);
      if expiry.Err? {
        return Err(expiry.error);
      }
      entries := entries[key := Entry(value, expiry.value)];
      result := Ok(());
    }

    /** Reports whether a live entry was there. */
    method Delete(key: string, now: int) returns (result: Result<bool>)
      modifies this
      ensures Blank(key) ==> result == Err(ValidationError) && entries == old(entries)
      ensures !Blank(key) ==> result == Ok(Lookup(old(entries), key, now).Some?) && entries == old(entries) - {key}
    {
      var found := Get(key, now);
      if found.Err? {
        return Err(found.error);
      }
      var there := key in entries;
      entries := entries - {key};
      result := Ok(there);
    }

    method Incr(key: string, amount: int, ttlSeconds: Option<int>, permanent: bool,
                now: int) returns (result: Result<int>)
      modifies this
      ensures Blank(key) ==> result == Err(ValidationError) && entries == old(entries)
      ensures !Blank(key) ==> (entries, result) == Incremented(old(entries), key, amount, ttlSeconds, permanent, now)
    {
      var found := Get(key, now);
      if found.Err? {
        return Err(found.error);
      }
      var current := found.value;
      if current.None? {
        var expiry := ExpiryOf(ttlSeconds, permanent, now);
        if expiry.Err? {
          return Err(expiry.error);
        }
        entries := entries[key := Entry(Number(amount), expiry.value)];
        return Ok(amount);
      }
      match current.value
      case Document(_) => result := Err(Conflict);
      case Number(n) =>
        entries := entries[key := Entry(Number(n + amount), entries[key].expiresAt)];
        result := Ok(n + amount);
    }

    method Expire(key: string, ttlSeconds: int, now: int) returns (result: Result<bool>)
      modifies this
      ensures Blank(key) || ttlSeconds <= 0 ==> result == Err(ValidationError) && entries == old(entries)
      ensures !Blank(key) && ttlSeconds > 0 ==>
                && result == Ok(Lookup(old(entries), key, now).Some?)
                && entries == if result.value
                              then old(entries)[key := old(entries)[key].(expiresAt := Some(now + Seconds(ttlSeconds)))]
                              else old(entries) - {key}
    {
      if Blank(key) || ttlSeconds <= 0 {
        return Err(ValidationError);
      }
      if key !in entries || Expired(entries[key], now) {
        entries := entries - {key};
        return Ok(false);
      }
      entries := entries[key := entries[key].(expiresAt := Some(now + Seconds(ttlSeconds)))];
      result := Ok(true);
    }
  }
}
