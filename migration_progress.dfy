/** A model of Atlas's MigrationProgressService: a single-slot, time-to-live
    read-through cache in front of the graph store's migration-status query.

    The wall clock becomes the parameter `now`, and the graph store's answer to
    `getMigrationStatus()` becomes the parameter `answer`: `Success(None)` is a
    null status, `Success(Some(s))` a status, and `Failure` an exception thrown
    by the store. The status itself is opaque (the type parameter `T`).
 */
module MigrationProgress {

  /** A reference that may be null. */
  datatype Option<+T> = None | Some(value: T)

  /** The outcome of a call that may throw: a value, or an exception. */
  datatype Result<+R> = Success(value: R) | Failure

  /** The part of a Commons `Configuration` the service reads: long-valued keys. */
  datatype Configuration = Configuration(longs: map<string, int>)

  /** The configuration key that overrides the time-to-live. */
  const MigrationQueryCacheTtl: string := "atlas.migration.query.cache.ttlInSecs"

  /** The time-to-live used when none is configured (in the clock's unit). */
  const DefaultCacheTtl: int := 30 * 1000

  /** The time-to-live chosen at construction: the configured value of
      `MigrationQueryCacheTtl` when there is a configuration holding that key,
      and `DefaultCacheTtl` otherwise. */
  function CacheValidity(configuration: Option<Configuration>): (ttl: int)
    ensures configuration.None? ==> ttl == DefaultCacheTtl
    ensures configuration.Some? && MigrationQueryCacheTtl in configuration.value.longs ==>
              ttl == configuration.value.longs[MigrationQueryCacheTtl]
    ensures configuration.Some? && MigrationQueryCacheTtl !in configuration.value.longs ==>
              ttl == DefaultCacheTtl
  {
    match configuration
    case None => DefaultCacheTtl
    case Some(config) =>
      if MigrationQueryCacheTtl in config.longs then config.longs[MigrationQueryCacheTtl]
      else DefaultCacheTtl
  }

  /** The two mutable fields of the service, as a value. */
  datatype Cache<T> = Cache(cachedStatus: Option<T>, cacheExpirationTime: int)

  /** The state of a freshly constructed service: nothing cached, expiry 0. */
  function Initial<T>(): Cache<T>
  {
    Cache(None, 0)
  }

  /** The staleness check: the slot is empty, or `now` is strictly past the
      expiration time (a call exactly at the expiration time is still fresh). */
  predicate NeedsRefresh<T>(c: Cache<T>, now: int)
  {
    c.cachedStatus.None? || now > c.cacheExpirationTime
  }

  /** What one call does: the new cache, what the caller gets, and whether the
      graph store was queried. */
  datatype Served<T> = Served(cache: Cache<T>, result: Result<Option<T>>, queried: bool)

  /** One call of `getStatus()` at time `now` against a cache with time-to-live
      `cacheValidity`, when the graph store would answer `answer`. On a refresh
      the expiration time is advanced before the store is asked, so an exception
      leaves the old status in place under the new expiration time. */
  function Serve<T>(c: Cache<T>, cacheValidity: int, now: int, answer: Result<Option<T>>): (s: Served<T>)
    // the store is asked exactly when the staleness check says so
    ensures s.queried <==> NeedsRefresh(c, now)
    // a refresh: new expiration, and the caller sees exactly the store's answer or exception
    ensures s.queried ==> s.cache.cacheExpirationTime == now + cacheValidity && s.result == answer
    // a hit: nothing changes and the cached status is returned
    ensures !s.queried ==> s.cache == c && s.result == Success(c.cachedStatus)
    // whatever status the caller gets is the one the cache now holds
    ensures s.result.Success? ==> s.cache.cachedStatus == s.result.value
    // an exception never touches the cached status
    ensures s.result.Failure? ==> s.cache.cachedStatus == c.cachedStatus
  {
    if NeedsRefresh(c, now) then
      var reset := c.(cacheExpirationTime := now + cacheValidity);
      match answer
      case Success(status) => Served(reset.(cachedStatus := status), answer, true)
      case Failure => Served(reset, Failure, true)
    else
      Served(c, Success(c.cachedStatus), false)
  }

  /** The service object. `cacheValidity` is fixed at construction; the two
      cache fields are updated in place by every refresh. */
  class MigrationProgressService<T> {
    const cacheValidity: int
    var cachedStatus: Option<T>
    var cacheExpirationTime: int
    /** How many times the graph store has been asked for the status. */
    ghost var queries: nat

    ghost function State(): Cache<T>
      reads this
    {
      Cache(cachedStatus, cacheExpirationTime)
    }

    /** Population is lazy: construction only chooses the time-to-live. */
    constructor (configuration: Option<Configuration>)
      ensures cacheValidity == CacheValidity(configuration)
      ensures State() == Initial()
      ensures queries == 0
    {
      cacheValidity := CacheValidity(configuration);
      cachedStatus := None;
      cacheExpirationTime := 0;
      queries := 0;
    }

    method GetStatus(now: int, answer: Result<Option<T>>) returns (r: Result<Option<T>>)
      modifies this
      ensures var s := Serve(old(State()), cacheValidity, now, answer);
              State() == s.cache && r == s.result &&
              queries == old(queries) + (if s.queried then 1 else 0)
    {
      r := FetchStatus(now, answer);
    }

    method FetchStatus(currentTime: int, answer: Result<Option<T>>) returns (r: Result<Option<T>>)
      modifies this
      ensures NeedsRefresh(old(State()), currentTime) ==>
                && queries == old(queries) + 1
                && cacheExpirationTime == currentTime + cacheValidity
                && r == answer
                && cachedStatus == (if answer.Success? then answer.value else old(cachedStatus))
      ensures !NeedsRefresh(old(State()), currentTime) ==>
                && queries == old(queries)
                && State() == old(State())
                && r == Success(old(cachedStatus))
      ensures var s := Serve(old(State()), cacheValidity, currentTime, answer);
              State() == s.cache && r == s.result
    {
      var reset := ResetCache(currentTime);
      if reset {
        queries := queries + 1;
        match answer
        case Success(status) =>
          cachedStatus := status;
        case Failure =>
          r := Failure;
          return;
      }
      r := Success(cachedStatus);
    }

    method ResetCache(currentTime: int) returns (ret: bool)
      modifies this`cacheExpirationTime
      ensures ret == NeedsRefresh(old(State()), currentTime)
      ensures cacheExpirationTime == if ret then currentTime + cacheValidity else old(cacheExpirationTime)
    {
      ret := cachedStatus.None? || currentTime > cacheExpirationTime;
      if ret {
        cacheExpirationTime := currentTime + cacheValidity;
      }
    }
  }

  /** A client polling twice with the default time-to-live: the second call,
      within the window, gets the first status and never sees the store's
      second answer. */
  method PollWithinDefaultWindow<T>(v: T, w: T, t0: int, t1: int)
    returns (first: Result<Option<T>>, second: Result<Option<T>>)
    requires t1 <= t0 + DefaultCacheTtl
    ensures first == Success(Some(v)) && second == Success(Some(v))
  {
    var service := new MigrationProgressService<T>(None);
    first := service.GetStatus(t0, Success(Some(v)));
    second := service.GetStatus(t1, Success(Some(w)));
  }
}
