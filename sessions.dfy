/** Properties of a sequence of `getStatus()` calls against one service. */
module MigrationProgressSessions {
  import opened MigrationProgress

  /** One call: the time it is made at, and what the graph store would answer
      if it were asked. */
  datatype Request<T> = Request(now: int, answer: Result<Option<T>>)

  /** The outcome of a sequence of calls: the final cache, what each call
      returned, and which calls asked the graph store. */
  datatype Session<T> = Session(cache: Cache<T>, results: seq<Result<Option<T>>>, refreshed: seq<bool>)

  /** Serves `reqs` in order, starting from `c`. */
  function Replay<T>(c: Cache<T>, ttl: int, reqs: seq<Request<T>>): (s: Session<T>)
    ensures |s.results| == |reqs| && |s.refreshed| == |reqs|
    decreases |reqs|
  {
    if reqs == [] then
      Session(c, [], [])
    else
      var k := |reqs| - 1;
      var before := Replay(c, ttl, reqs[..k]);
      var last := Serve(before.cache, ttl, reqs[k].now, reqs[k].answer);
      Session(last.cache, before.results + [last.result], before.refreshed + [last.queried])
  }

  /** The status held after `reqs`: that of the most recent refresh whose fetch
      did not throw, or the starting one if there was none. */
  function HeldStatus<T>(c: Cache<T>, reqs: seq<Request<T>>, refreshed: seq<bool>): Option<T>
    requires |refreshed| == |reqs|
    decreases |reqs|
  {
    if reqs == [] then
      c.cachedStatus
    else
      var k := |reqs| - 1;
      if refreshed[k] && reqs[k].answer.Success? then reqs[k].answer.value
      else HeldStatus(c, reqs[..k], refreshed[..k])
  }

  /** The expiration time after `reqs`: the time of the most recent refresh
      plus the time-to-live, or the starting one if there was no refresh. */
  function LastExpiry<T>(c: Cache<T>, ttl: int, reqs: seq<Request<T>>, refreshed: seq<bool>): int
    requires |refreshed| == |reqs|
    decreases |reqs|
  {
    if reqs == [] then
      c.cacheExpirationTime
    else
      var k := |reqs| - 1;
      if refreshed[k] then reqs[k].now + ttl
      else LastExpiry(c, ttl, reqs[..k], refreshed[..k])
  }

  /** The cache that history predicts after `reqs`. */
  function HistoryCache<T>(c: Cache<T>, ttl: int, reqs: seq<Request<T>>, refreshed: seq<bool>): Cache<T>
    requires |refreshed| == |reqs|
  {
    Cache(HeldStatus(c, reqs, refreshed), LastExpiry(c, ttl, reqs, refreshed))
  }

  /** The cache after any sequence of calls holds the most recently fetched
      status and expires one time-to-live after the most recent refresh. */
  lemma {:induction false} ReplayCacheIsHistory<T>(c: Cache<T>, ttl: int, reqs: seq<Request<T>>)
    ensures Replay(c, ttl, reqs).cache == HistoryCache(c, ttl, reqs, Replay(c, ttl, reqs).refreshed)
  {
    if reqs != [] {
      var k := |reqs| - 1;
      var before := Replay(c, ttl, reqs[..k]);
      ReplayCacheIsHistory(c, ttl, reqs[..k]);
      assert Replay(c, ttl, reqs).refreshed[..k] == before.refreshed;
    }
  }

  /** Call `i` of a session is served against the cache left by the calls
      before it, and a longer session does not change what they did. */
  lemma {:induction false} ReplayPrefix<T>(c: Cache<T>, ttl: int, reqs: seq<Request<T>>, i: nat)
    requires i < |reqs|
    ensures var s := Replay(c, ttl, reqs);
      var step := Serve(Replay(c, ttl, reqs[..i]).cache, ttl, reqs[i].now, reqs[i].answer);
      && s.refreshed[..i] == Replay(c, ttl, reqs[..i]).refreshed
      && s.refreshed[i] == step.queried
      && s.results[i] == step.result
  {
    var k := |reqs| - 1;
    if i < k {
      ReplayPrefix(c, ttl, reqs[..k], i);
      assert reqs[..k][..i] == reqs[..i];
      assert Replay(c, ttl, reqs).refreshed[..i] == Replay(c, ttl, reqs[..k]).refreshed[..i];
    }
  }

  /** Each call of any session refreshes exactly when the history before it
      makes the cache stale, and returns either the store's answer or the
      status that history says is held. */
  lemma {:induction false} ReplayTracksHistory<T>(c: Cache<T>, ttl: int, reqs: seq<Request<T>>)
    ensures var s := Replay(c, ttl, reqs);
      && s.cache == HistoryCache(c, ttl, reqs, s.refreshed)
      && forall i :: 0 <= i < |reqs| ==>
           var held := HistoryCache(c, ttl, reqs[..i], s.refreshed[..i]);
           && (s.refreshed[i] <==> NeedsRefresh(held, reqs[i].now))
           && s.results[i] == if s.refreshed[i] then reqs[i].answer else Success(held.cachedStatus)
  {
    var s := Replay(c, ttl, reqs);
    ReplayCacheIsHistory(c, ttl, reqs);
    forall i | 0 <= i < |reqs|
      ensures var held := HistoryCache(c, ttl, reqs[..i], s.refreshed[..i]);
              && (s.refreshed[i] <==> NeedsRefresh(held, reqs[i].now))
              && s.results[i] == if s.refreshed[i] then reqs[i].answer else Success(held.cachedStatus)
    {
      ReplayPrefix(c, ttl, reqs, i);
      ReplayCacheIsHistory(c, ttl, reqs[..i]);
    }
  }

  /** How many calls of a session asked the graph store. */
  function Refreshes(refreshed: seq<bool>): nat
    decreases |refreshed|
  {
    if refreshed == [] then 0
    else
      var k := |refreshed| - 1;
      Refreshes(refreshed[..k]) + if refreshed[k] then 1 else 0
  }

  /** Serves `reqs` in order on a service object: the object goes through
      exactly the session `Replay` describes, so every session property above
      holds of the object. */
  method Drive<T>(service: MigrationProgressService<T>, reqs: seq<Request<T>>)
    returns (results: seq<Result<Option<T>>>)
    modifies service
    ensures var s := Replay(old(service.State()), service.cacheValidity, reqs);
      && service.State() == s.cache
      && results == s.results
      && service.queries == old(service.queries) + Refreshes(s.refreshed)
  {
    ghost var start := service.State();
    ghost var queried := service.queries;
    results := [];
    var i := 0;
    while i < |reqs|
      invariant 0 <= i <= |reqs|
      invariant service.State() == Replay(start, service.cacheValidity, reqs[..i]).cache
      invariant results == Replay(start, service.cacheValidity, reqs[..i]).results
      invariant service.queries == queried + Refreshes(Replay(start, service.cacheValidity, reqs[..i]).refreshed)
    {
      assert reqs[..i + 1][..i] == reqs[..i];
      var r := service.GetStatus(reqs[i].now, reqs[i].answer);
      results := results + [r];
      i := i + 1;
    }
    assert reqs[..i] == reqs;
  }

  /** While a non-null status is cached, every call at or before its expiration
      time is a hit: no call asks the store, nothing changes, and every call
      returns that status. No monotonicity of the clock is needed. */
  lemma {:induction false} WindowHits<T>(c: Cache<T>, ttl: int, reqs: seq<Request<T>>)
    requires c.cachedStatus.Some?
    requires forall i :: 0 <= i < |reqs| ==> reqs[i].now <= c.cacheExpirationTime
    ensures var s := Replay(c, ttl, reqs);
      && s.cache == c
      && forall i :: 0 <= i < |reqs| ==> !s.refreshed[i] && s.results[i] == Success(c.cachedStatus)
  {
    if reqs != [] {
      WindowHits(c, ttl, reqs[..|reqs| - 1]);
    }
  }

  /** Cold start: whatever the time-to-live and the time, the first call after
      construction asks the store and returns exactly its answer. */
  lemma {:induction false} ColdStart<T>(ttl: int, reqs: seq<Request<T>>)
    requires reqs != []
    ensures Replay(Initial(), ttl, reqs).refreshed[0]
    ensures Replay(Initial(), ttl, reqs).results[0] == reqs[0].answer
  {
    ReplayPrefix(Initial(), ttl, reqs, 0);
    assert reqs[..0] == [];
  }

  /** A refresh that fetched a non-null status `v` at `t0` serves every later
      call up to `t0 + ttl` from the cache: only the first call asked the store. */
  lemma {:induction false} FreshFetchServesWindow<T>(c: Cache<T>, ttl: int, t0: int, v: T, reqs: seq<Request<T>>)
    requires NeedsRefresh(c, t0)
    requires forall i :: 0 <= i < |reqs| ==> reqs[i].now <= t0 + ttl
    ensures var first := Serve(c, ttl, t0, Success(Some(v)));
      && first.queried && first.result == Success(Some(v))
      && forall i :: 0 <= i < |reqs| ==>
           !Replay(first.cache, ttl, reqs).refreshed[i] && Replay(first.cache, ttl, reqs).results[i] == Success(Some(v))
  {
    WindowHits(Serve(c, ttl, t0, Success(Some(v))).cache, ttl, reqs);
  }

  /** Two calls at `t0 <= t1 <= t0 + ttl`, the first of which refreshed and got
      a non-null status, ask the store once. */
  lemma {:induction false} TwoCallsFetchOnce<T>(c: Cache<T>, ttl: int, t0: int, t1: int, v: T, a1: Result<Option<T>>)
    requires NeedsRefresh(c, t0)
    requires t0 <= t1 <= t0 + ttl
    ensures var s := Replay(c, ttl, [Request(t0, Success(Some(v))), Request(t1, a1)]);
      s.refreshed == [true, false] && s.results == [Success(Some(v)), Success(Some(v))]
  {
    var reqs := [Request(t0, Success(Some(v))), Request(t1, a1)];
    var first := Serve(c, ttl, t0, Success(Some(v)));
    assert reqs[..1] == [Request(t0, Success(Some(v)))];
    assert reqs[..1][..0] == [];
    assert Replay(c, ttl, reqs[..1]) == Session(first.cache, [first.result], [true]);
  }

  /** A null status is never cached: after a refresh that fetched null, the
      next call asks the store again, whatever its time. */
  lemma NullIsNeverCached<T>(c: Cache<T>, ttl: int, t0: int, t1: int, a1: Result<Option<T>>)
    requires NeedsRefresh(c, t0)
    ensures var first := Serve(c, ttl, t0, Success(None));
      first.result == Success(None) && Serve(first.cache, ttl, t1, a1).queried
  {
  }

  /** The expiration time is advanced before the fetch: when the store throws
      on a refresh at `t0` while a non-null status `v` is cached, the exception
      reaches the caller, `v` stays cached under the new expiration `t0 + ttl`,
      and every later call up to then returns `v` without asking the store. */
  lemma {:induction false} FailedRefreshKeepsOldStatus<T>(c: Cache<T>, ttl: int, t0: int, v: T, reqs: seq<Request<T>>)
    requires c.cachedStatus == Some(v) && t0 > c.cacheExpirationTime
    requires forall i :: 0 <= i < |reqs| ==> reqs[i].now <= t0 + ttl
    ensures var first := Serve(c, ttl, t0, Failure);
      && first.queried && first.result == Failure
      && first.cache == Cache(Some(v), t0 + ttl)
      && Replay(first.cache, ttl, reqs).cache == first.cache
      && forall i :: 0 <= i < |reqs| ==>
           !Replay(first.cache, ttl, reqs).refreshed[i] && Replay(first.cache, ttl, reqs).results[i] == Success(Some(v))
  {
    WindowHits(Serve(c, ttl, t0, Failure).cache, ttl, reqs);
  }

  /** An exception on an empty slot is not remembered: the slot stays empty,
      so the next call asks the store again, whatever its time. */
  lemma FailureOnEmptySlotRetries<T>(c: Cache<T>, ttl: int, t0: int, t1: int, a1: Result<Option<T>>)
    requires c.cachedStatus.None?
    ensures var first := Serve(c, ttl, t0, Failure);
      first.result == Failure && first.cache.cachedStatus.None? && Serve(first.cache, ttl, t1, a1).queried
  {
  }

  /** With no configuration the time-to-live is the default: after a non-null
      fetch at `t0`, a call at `t0 + DefaultCacheTtl` is still a hit and a call
      one unit later refreshes. */
  lemma DefaultTtlBoundary<T>(c: Cache<T>, t0: int, v: T, a1: Result<Option<T>>)
    requires NeedsRefresh(c, t0)
    ensures var first := Serve(c, CacheValidity(None), t0, Success(Some(v)));
      && !Serve(first.cache, CacheValidity(None), t0 + DefaultCacheTtl, a1).queried
      && Serve(first.cache, CacheValidity(None), t0 + DefaultCacheTtl, a1).result == Success(Some(v))
      && Serve(first.cache, CacheValidity(None), t0 + DefaultCacheTtl + 1, a1).queried
  {
  }
}
