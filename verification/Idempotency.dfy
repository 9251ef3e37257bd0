/**
  Deduplication of events by key. A key is accepted unless an earlier acceptance of it is
  still alive. The in-process store keeps a dictionary of expiry times that it prunes when it
  grows; the dictionary is proved to answer as the full history of accepted calls would.
  Times are whole ticks of one clock that never runs backwards.
 */
module Idempotency {

  /** One accepted call. */
  datatype Accept = Accept(key: string, at: int, ttl: int)

  type History = seq<Accept>

  /** An earlier acceptance of the key has not expired. */
  ghost predicate Alive(h: History, key: string, now: int) {
    exists i :: 0 <= i < |h| && h[i].key == key && h[i].at + h[i].ttl > now
  }

  /** The dictionary answers every question asked at `now` or later as the history does. */
  ghost predicate Refines(cache: map<string, int>, h: History, now: int) {
    forall key: string, t: int :: t >= now ==> (Alive(h, key, t) <==> key in cache && cache[key] > t)
  }

  /** Nothing was accepted while an earlier acceptance of its key was alive. */
  ghost predicate NoOverlap(h: History) {
    forall i, j :: 0 <= i < j < |h| && h[i].key == h[j].key ==> h[i].at + h[i].ttl <= h[j].at
  }

  ghost predicate ClockAt(h: History, now: int) {
    forall i :: 0 <= i < |h| ==> h[i].at <= now
  }

  lemma AliveAppend(h: History, a: Accept, key: string, t: int)
    ensures Alive(h + [a], key, t) <==> Alive(h, key, t) || (a.key == key && a.at + a.ttl > t)
  {
    if Alive(h, key, t) {
      var i :| 0 <= i < |h| && h[i].key == key && h[i].at + h[i].ttl > t;
      assert (h + [a])[i] == h[i];
    }
    if a.key == key && a.at + a.ttl > t {
      assert (h + [a])[|h|] == a;
    }
  }

  /** Storing the new expiry time keeps the dictionary right: what it overwrites had expired. */
  lemma StoreRefines(cache: map<string, int>, h: History, key: string, now: int, ttl: int)
    requires Refines(cache, h, now) && !(key in cache && cache[key] > now)
    ensures Refines(cache[key := now + ttl], h + [Accept(key, now, ttl)], now)
  {
    var a := Accept(key, now, ttl);
    forall k: string, t: int | t >= now
      ensures Alive(h + [a], k, t) <==> k in cache[key := now + ttl] && cache[key := now + ttl][k] > t
    {
      AliveAppend(h, a, k, t);
    }
  }

  lemma ExtendsNoOverlap(cache: map<string, int>, h: History, key: string, now: int, ttl: int)
    requires Refines(cache, h, now) && NoOverlap(h) && !(key in cache && cache[key] > now)
    ensures NoOverlap(h + [Accept(key, now, ttl)])
  {
    var h' := h + [Accept(key, now, ttl)];
    assert !Alive(h, key, now);
    forall i, j | 0 <= i < j < |h'| && h'[i].key == h'[j].key ensures h'[i].at + h'[i].ttl <= h'[j].at {
      assert h'[i] == h[i];
    }
  }

  /** A store of expiry times by key. */
  class Store {
    var cache: map<string, int>
    ghost var history: History
    ghost var clock: int

    ghost predicate Valid()
      reads this
    {
      Refines(cache, history, clock) && NoOverlap(history) && ClockAt(history, clock)
    }

    constructor ()
      ensures Valid() && history == [] && clock == 0
    {
      cache, history, clock := map[], [], 0;
    }

    /** True exactly when no earlier accepted call for the key is unexpired, whatever was pruned since. */
    method CheckAndSet(key: string, ttl: int, now: int) returns (isNew: bool)
      requires Valid() && clock <= now
      modifies this
      ensures Valid() && clock == now
      ensures isNew <==> !Alive(old(history), key, now)
      ensures history == if isNew then old(history) + [Accept(key, now, ttl)] else old(history)
    {
      clock := now;
      if key in cache && cache[key] > now {
        return false;
      }
      StoreRefines(cache, history, key, now, ttl);
      ExtendsNoOverlap(cache, history, key, now, ttl);
      cache := cache[key := now + ttl];
      history := history + [Accept(key, now, ttl)];
      if |cache| > 10_000 {
        Prune(now);
      }
      return true;
    }

    /** Drop the expired keys, one after the other. */
    method Prune(now: int)
      requires Valid() && clock == now
      modifies this`cache
      ensures Valid()
      ensures forall key :: key in cache <==> key in old(cache) && old(cache)[key] > now
      ensures forall key :: key in cache ==> cache[key] == old(cache)[key]
    {
      var pending := cache.Keys;
      while pending != {}
        invariant pending <= old(cache).Keys
        invariant forall key :: key in cache <==> key in old(cache) && (key in pending || old(cache)[key] > now)
        invariant forall key :: key in cache ==> cache[key] == old(cache)[key]
        decreases pending
      {
        var key :| key in pending;
        if cache[key] <= now {
          cache := cache - {key};
        }
        pending := pending - {key};
      }
    }
  }

  /** Of all the calls a store has accepted, two for one key are at least the first one's time to live apart. */
  lemma AcceptsApart(store: Store, i: nat, j: nat)
    requires store.Valid() && i < j < |store.history| && store.history[i].key == store.history[j].key
    ensures store.history[j].at - store.history[i].at >= store.history[i].ttl
  {
  }

  // ----- the shared store with the in-process store behind it

  /**
    `shared` stands for Redis, whose `SET NX EX` accepts under the same rule and expires keys by
    itself. It refuses a time to live that is not positive, and it can be out of reach.
   */
  class Deduplicator {
    const shared: Store
    const local: Store

    ghost predicate Valid()
      reads this, shared, local
    {
      shared != local && shared.Valid() && local.Valid()
    }

    constructor ()
      ensures Valid() && fresh(shared) && fresh(local)
      ensures shared.history == local.history == [] && shared.clock == local.clock == 0
    {
      shared := new Store();
      local := new Store();
    }

    predicate AsksShared(inline: bool, reachable: bool, ttl: int) {
      !inline && reachable && ttl > 0
    }

    /**
      The answer is exact for the store that is asked. A key that is alive somewhere is accepted
      again exactly when only the other store knows it.
     */
    method CheckAndSet(key: string, ttl: int, now: int, inline: bool, reachable: bool) returns (isNew: bool)
      requires Valid() && shared.clock <= now && local.clock <= now
      modifies shared, local
      ensures Valid() && shared.clock <= now && local.clock <= now
      ensures isNew <==> !Alive(if AsksShared(inline, reachable, ttl) then old(shared.history) else old(local.history), key, now)
      ensures isNew && (Alive(old(shared.history), key, now) || Alive(old(local.history), key, now)) <==>
        if AsksShared(inline, reachable, ttl)
        then Alive(old(local.history), key, now) && !Alive(old(shared.history), key, now)
        else Alive(old(shared.history), key, now) && !Alive(old(local.history), key, now)
      ensures shared.history ==
        old(shared.history) + if isNew && AsksShared(inline, reachable, ttl) then [Accept(key, now, ttl)] else []
      ensures local.history ==
        old(local.history) + if isNew && !AsksShared(inline, reachable, ttl) then [Accept(key, now, ttl)] else []
    {
      if AsksShared(inline, reachable, ttl) {
        isNew := shared.CheckAndSet(key, ttl, now);
      } else {
        isNew := local.CheckAndSet(key, ttl, now);
      }
    }
  }

  /** A key accepted by Redis is accepted once more a tick later if Redis has gone away meanwhile. */
  method DoubleAcceptWhenRedisFails(key: string) returns (first: bool, second: bool)
    ensures first && second
  {
    var d := new Deduplicator();
    first := d.CheckAndSet(key, 86_400, 1, false, true);
    second := d.CheckAndSet(key, 86_400, 2, false, false);
  }
}
