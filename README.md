# MigrationProgressService, modelled in Dafny

Apache Atlas's `MigrationProgressService` answers "how far has the migration
got?" by asking the graph store for its `MigrationStatus`. Polling clients
may call it often, and the store query is expensive, so the service keeps a
cache with one slot. The slot holds the last status and an absolute
expiration time. The time-to-live (`cacheValidity`) is chosen once, at
construction. It is `atlas.migration.query.cache.ttlInSecs` from the
configuration when that key is present, and 30000 otherwise.

On each `getStatus()` the service refreshes when the slot is empty or the
current time is strictly past the expiration time. A refresh first moves the
expiration time to `now + cacheValidity` and then asks the store. The store's
answer, even a null one, replaces the cached status.

The model has two modules:

- `MigrationProgress` (`migration_progress.dfy`) holds the class
  `MigrationProgressService<T>`. Its fields `cachedStatus`,
  `cacheExpirationTime` and the constant `cacheValidity` mirror the Java
  fields. A ghost counter `queries` records how often the store was asked.
  The methods `ResetCache`, `FetchStatus` and `GetStatus` update the fields in
  place. `GetStatus` and `FetchStatus` are proved against the pure function
  `Serve`, which describes one call on a `Cache<T>` value. `ResetCache` is
  proved against the staleness check `NeedsRefresh`.
- `MigrationProgressSessions` (`sessions.dfy`) replays a sequence of calls
  (`Replay`) and proves what the service promises across calls. The cache
  always holds the most recently fetched status and expires one
  time-to-live after the most recent refresh. While a non-null status is
  cached, calls at or before its expiration time are hits. A null status is never cached. An exception thrown after a non-null
  status was cached leaves that status in place for a whole new window.
  `Drive` runs a sequence of calls on a `MigrationProgressService` object and
  proves that the object ends exactly as `Replay` says, so these properties
  hold for the class itself.

External inputs become parameters. The clock is the argument `now`. The
graph store's answer is the argument `answer: Result<Option<T>>`, where
`Success(None)` is a null status, `Success(Some(s))` a status, and `Failure`
an exception that reaches the caller. `MigrationStatus` is the opaque type
parameter `T`. The configuration is `Option<Configuration>`, and a
`Configuration` is a map of long-valued keys.

A failed fetch suppresses retries for one time-to-live only when a non-null
status is already cached (`FailedRefreshKeepsOldStatus`). A failed fetch
leaves `cachedStatus` as it was. On an empty slot, the `cachedStatus == null`
test at MigrationProgressService.java:68 therefore forces a refresh on the
next call, whatever the expiration time. So a store that keeps throwing on a
cold cache is asked on every call (`FailureOnEmptySlotRetries`).

## Model

| member | source | states |
|---|---|---|
| `MigrationProgress.CacheValidity` | repository/src/main/java/org/apache/atlas/repository/impexp/MigrationProgressService.java:36-51 | The time-to-live is the default 30000 when there is no configuration. With a configuration, it is the configured value of `atlas.migration.query.cache.ttlInSecs`, or 30000 when that key is absent. |
| `MigrationProgress.Serve` | repository/src/main/java/org/apache/atlas/repository/impexp/MigrationProgressService.java:58-74 | A call asks the store exactly when the slot is empty or `now` is strictly past the expiration time, so `now == expiration` with a status cached is a hit. A refresh sets the expiration to `now + cacheValidity` and returns exactly the store's answer or exception. A hit changes nothing and returns the cached status. Any status returned is the one the cache then holds. An exception leaves the cached status untouched. |
| `MigrationProgress.MigrationProgressService.constructor` | repository/src/main/java/org/apache/atlas/repository/impexp/MigrationProgressService.java:41-52 | After construction the slot is empty, the expiration time is 0, and the store has not been asked. `cacheValidity` is `CacheValidity(configuration)`, and as a `const` it never changes. |
| `MigrationProgress.MigrationProgressService.GetStatus` | repository/src/main/java/org/apache/atlas/repository/impexp/MigrationProgressService.java:54-56 | The new fields, the returned value and the store-query count are those `Serve` gives for the old fields. |
| `MigrationProgress.MigrationProgressService.FetchStatus` | repository/src/main/java/org/apache/atlas/repository/impexp/MigrationProgressService.java:58-65 | On a refresh the store is asked once, the expiration becomes `currentTime + cacheValidity`, and the caller gets the store's answer or exception. The answer replaces the cached status, and an exception leaves the old one. On a hit the store is not asked, both fields are unchanged, and the old status is returned. |
| `MigrationProgress.MigrationProgressService.ResetCache` | repository/src/main/java/org/apache/atlas/repository/impexp/MigrationProgressService.java:67-74 | It returns true exactly when the slot is empty or `currentTime` is past the expiration. Only then does it move the expiration to `currentTime + cacheValidity`. It changes no other field. |
| `MigrationProgress.PollWithinDefaultWindow` | repository/src/main/java/org/apache/atlas/repository/impexp/MigrationProgressService.java:47-70 | A service built without a configuration fetches status `v` at `t0`. Any call up to `t0 + 30000` then returns `v` and ignores what the store would now say. |
| `MigrationProgressSessions.ReplayCacheIsHistory` | repository/src/main/java/org/apache/atlas/repository/impexp/MigrationProgressService.java:58-74 | After any sequence of calls, the cached status is the one from the latest refresh that did not throw, or the initial status if there was none. The expiration is the latest refresh time plus the time-to-live, or the initial expiration if there was no refresh. |
| `MigrationProgressSessions.ReplayTracksHistory` | repository/src/main/java/org/apache/atlas/repository/impexp/MigrationProgressService.java:58-74 | Each call of any session refreshes exactly when the history of the calls before it makes the cache stale. It returns the store's answer on a refresh, and otherwise the status that history says is held. |
| `MigrationProgressSessions.Drive` | repository/src/main/java/org/apache/atlas/repository/impexp/MigrationProgressService.java:54-74 | Calling `GetStatus` on a service object for each request in turn gives exactly the results of `Replay` from the object's starting fields. The object ends in `Replay`'s final cache, and its query count grows by the number of refreshes. |
| `MigrationProgressSessions.WindowHits` | repository/src/main/java/org/apache/atlas/repository/impexp/MigrationProgressService.java:64-68 | While a non-null status is cached, any number of calls at or before the expiration time are hits. None asks the store, none changes the cache, and all return the cached status. This holds without a monotonic clock. |
| `MigrationProgressSessions.ReplayPrefix` | repository/src/main/java/org/apache/atlas/repository/impexp/MigrationProgressService.java:54-65 | Call `i` of a session is served against the cache that the calls before it left. Later calls do not change what earlier calls did or returned. |
| `MigrationProgressSessions.ColdStart` | repository/src/main/java/org/apache/atlas/repository/impexp/MigrationProgressService.java:43-68 | From the constructed state, the first call of any session asks the store and returns exactly its answer, whatever the time-to-live and the time. |
| `MigrationProgressSessions.FreshFetchServesWindow` | repository/src/main/java/org/apache/atlas/repository/impexp/MigrationProgressService.java:60-70 | A refresh at `t0` that fetched a non-null status `v` serves every later call up to `t0 + ttl` from the cache. None of those calls asks the store, and all return `v`. |
| `MigrationProgressSessions.TwoCallsFetchOnce` | repository/src/main/java/org/apache/atlas/repository/impexp/MigrationProgressService.java:60-70 | Take two calls at `t0 <= t1 <= t0 + ttl`, where the first refreshes and gets non-null `v`. Only the first asks the store, and both return `v`. |
| `MigrationProgressSessions.NullIsNeverCached` | repository/src/main/java/org/apache/atlas/repository/impexp/MigrationProgressService.java:61-68 | After a refresh that fetched null, the next call asks the store again, whatever its time. |
| `MigrationProgressSessions.FailedRefreshKeepsOldStatus` | repository/src/main/java/org/apache/atlas/repository/impexp/MigrationProgressService.java:60-70 | Suppose the store throws on a refresh at `t0` while non-null `v` is cached. The caller gets the exception, and `v` stays cached with expiration `t0 + ttl`. Every later call up to then returns `v` without asking the store. |
| `MigrationProgressSessions.FailureOnEmptySlotRetries` | repository/src/main/java/org/apache/atlas/repository/impexp/MigrationProgressService.java:61-68 | When the store throws while the slot is empty, the slot stays empty. The next call asks the store again, whatever its time. |
| `MigrationProgressSessions.DefaultTtlBoundary` | repository/src/main/java/org/apache/atlas/repository/impexp/MigrationProgressService.java:49-70 | With no configuration, take a non-null fetch at `t0`. A call at exactly `t0 + 30000` is a hit that returns the fetched status, and a call at `t0 + 30001` refreshes. |

## Left out

- The wall clock (`System.currentTimeMillis()`) becomes the parameter `now`. No monotonicity is assumed, and no lemma needs it.
- The graph store is not modelled. How `getMigrationStatus()` computes a status is outside the model, and only its answer is modelled (a status, null, or an exception). The `graph` handle field is therefore absent too.
- The contents of `MigrationStatus` are not modelled, because the cache never inspects them.
- The configuration is modelled only as long-valued keys. A value that Commons Configuration cannot convert to a long makes `getLong` throw, so construction would fail; that path is not modelled.
- The default time-to-live is a fixed constant. In the Java code it is a mutable static field open to tests.
- Java `long` overflow in `currentTime + cacheValidity` is not modelled: times and the time-to-live are unbounded integers.
- Times are plain integer units. The key's "ttlInSecs" name does not match the millisecond clock it is compared with, and the model ignores that mismatch.
- Concurrency is not modelled. The Java service is a singleton with unsynchronised fields, so simultaneous callers can each refresh. The model is sequential.
- The logger, which is never used, and the dependency-injection annotations are not modelled.
