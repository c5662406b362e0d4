/**
 The in-memory storage backend with lazy expiry, against an abstract store that evicts every entry at the
 very instant it expires.
 */
module MemoryStore {
  import opened Common

  type Key = string
  type Instant = nat

  /** A stored object; `expiresAt` is absent for an object that never expires. */
  datatype Entry = Entry(contentType: string, data: Bytes, expiresAt: Option<Instant>)

  datatype Request =
    | Upload(key: Key, contentType: string, data: Bytes, ttl: Option<nat>)
    | CheckCache(key: Key)
    | GetImage(key: Key)
    | Delete(key: Key)

  datatype Reply = Done | Present(found: bool) | Image(data: Option<Bytes>)

  predicate Expired(e: Entry, now: Instant) {
    e.expiresAt.Some? && now >= e.expiresAt.value
  }

  /**
   The expiry instant of an upload. An instant past the last one the clock can represent is no expiry at
   all, as `checked_add` returns nothing for it.
   */
  function Expiry(now: Instant, ttl: Option<nat>, lastInstant: Instant): Option<Instant> {
    if ttl.Some? && now + ttl.value <= lastInstant then Some(now + ttl.value) else None
  }

  // ---------------------------------------------------------------------------------------------
  // The backend
  // ---------------------------------------------------------------------------------------------

  /** What one request does to the lazily expiring map, and what it replies. */
  function LazyStep(m: map<Key, Entry>, now: Instant, r: Request, lastInstant: Instant): (map<Key, Entry>, Reply) {
    match r
    case Upload(key, contentType, data, ttl) =>
      (m[key := Entry(contentType, data, Expiry(now, ttl, lastInstant))], Done)
    case CheckCache(key) => (m, Present(key in m && !Expired(m[key], now)))
    case GetImage(key) => (m, Image(if key in m && !Expired(m[key], now) then Some(m[key].data) else None))
    case Delete(key) => (m - {key}, Done)
  }

  /** The backend with its map; `now` is what the clock says when the lock is held. */
  class InMemoryStorage {
    var storage: map<Key, Entry>
    const lastInstant: Instant

    constructor (lastInstant: Instant)
      ensures storage == map[] && this.lastInstant == lastInstant
    {
      this.lastInstant := lastInstant;
      storage := map[];
    }

    method UploadImageWithTtl(now: Instant, key: Key, contentType: string, data: Bytes, ttl: Option<nat>)
      modifies this
      ensures storage == LazyStep(old(storage), now, Upload(key, contentType, data, ttl), lastInstant).0
    {
      var expiresAt: Option<Instant> := None;
      if ttl.Some? && now + ttl.value <= lastInstant {
        expiresAt := Some(now + ttl.value);
      }
      storage := storage[key := Entry(contentType, data, expiresAt)];
    }

    method CheckCached(now: Instant, key: Key) returns (found: bool)
      ensures Present(found) == LazyStep(storage, now, CheckCache(key), lastInstant).1
    {
      if key !in storage {
        return false;
      }
      var expiresAt := storage[key].expiresAt;
      found := !(expiresAt.Some? && now >= expiresAt.value);
    }

    method Get(now: Instant, key: Key) returns (data: Option<Bytes>)
      ensures Image(data) == LazyStep(storage, now, GetImage(key), lastInstant).1
    {
      if key !in storage {
        return None;
      }
      var entry := storage[key];
      if entry.expiresAt.Some? && now >= entry.expiresAt.value {
        return None;
      }
      data := Some(entry.data);
    }

    method Remove(now: Instant, key: Key)
      modifies this
      ensures storage == LazyStep(old(storage), now, Delete(key), lastInstant).0
    {
      storage := storage - {key};
    }
  }

  // ---------------------------------------------------------------------------------------------
  // The abstract store
  // ---------------------------------------------------------------------------------------------

  /** An object with the first instant at which it is gone, however far away that is. */
  datatype Kept = Kept(data: Bytes, goneAt: Option<nat>)

  /** Evicts what expires by `now`. */
  function Evict(m: map<Key, Kept>, now: Instant): map<Key, Kept> {
    map key | key in m && !(m[key].goneAt.Some? && m[key].goneAt.value <= now) :: m[key]
  }

  /** One request on a store from which everything expired is already gone: it never looks at the clock. */
  function EagerStep(m: map<Key, Kept>, now: Instant, r: Request): (map<Key, Kept>, Reply) {
    match r
    case Upload(key, _, data, ttl) =>
      (m[key := Kept(data, if ttl.Some? then Some(now + ttl.value) else None)], Done)
    case CheckCache(key) => (m, Present(key in m))
    case GetImage(key) => (m, Image(if key in m then Some(m[key].data) else None))
    case Delete(key) => (m - {key}, Done)
  }

  datatype Timed = Timed(now: Instant, request: Request)

  function LazyRun(m: map<Key, Entry>, requests: seq<Timed>, lastInstant: Instant): seq<Reply>
    decreases |requests|
  {
    if requests == [] then []
    else
      var step := LazyStep(m, requests[0].now, requests[0].request, lastInstant);
      [step.1] + LazyRun(step.0, requests[1..], lastInstant)
  }

  /** Between requests time passes and entries go as they expire; then the request is served. */
  function EagerRun(m: map<Key, Kept>, requests: seq<Timed>): seq<Reply>
    decreases |requests|
  {
    if requests == [] then []
    else
      var step := EagerStep(Evict(m, requests[0].now), requests[0].now, requests[0].request);
      [step.1] + EagerRun(step.0, requests[1..])
  }

  /** The clock does not go back, starts no earlier than `from`, and stays within what it can represent. */
  predicate ClockOk(requests: seq<Timed>, from: Instant, lastInstant: Instant) {
    requests != [] ==>
      from <= requests[0].now <= lastInstant && ClockOk(requests[1..], requests[0].now, lastInstant)
  }

  /**
   The two stores at time `now`: they hold the same live objects. The lazy map may hold more, but only what
   has expired; an expiry past the end of the clock is kept by the abstract store and never comes.
   */
  ghost predicate Corresponds(l: map<Key, Entry>, e: map<Key, Kept>, now: Instant, lastInstant: Instant) {
    && (forall key <- e :: key in l && e[key].data == l[key].data
          && (l[key].expiresAt.Some? ==> e[key].goneAt == l[key].expiresAt)
          && (l[key].expiresAt.None? ==> e[key].goneAt.None? || e[key].goneAt.value > lastInstant))
    && (forall key <- l :: key in e || Expired(l[key], now))
  }

  lemma EvictionKeepsCorrespondence(
    l: map<Key, Entry>, e: map<Key, Kept>, before: Instant, now: Instant, lastInstant: Instant)
    requires Corresponds(l, e, before, lastInstant) && before <= now <= lastInstant
    ensures Corresponds(l, Evict(e, now), now, lastInstant)
    ensures forall key :: key in Evict(e, now) <==> key in l && !Expired(l[key], now)
  {
  }

  lemma StepCorresponds(l: map<Key, Entry>, e: map<Key, Kept>, now: Instant, r: Request, lastInstant: Instant)
    requires Corresponds(l, e, now, lastInstant)
    requires forall key :: key in e <==> key in l && !Expired(l[key], now)
    ensures LazyStep(l, now, r, lastInstant).1 == EagerStep(e, now, r).1
    ensures Corresponds(LazyStep(l, now, r, lastInstant).0, EagerStep(e, now, r).0, now, lastInstant)
  {
  }

  /** For every run under a clock that does not go back, the lazy backend replies as the abstract store. */
  lemma {:induction false} LazyRefinesEager(
    l: map<Key, Entry>, e: map<Key, Kept>, from: Instant, requests: seq<Timed>, lastInstant: Instant)
    requires Corresponds(l, e, from, lastInstant) && ClockOk(requests, from, lastInstant)
    ensures LazyRun(l, requests, lastInstant) == EagerRun(e, requests)
    decreases |requests|
  {
    hide Corresponds, Evict, LazyStep, EagerStep;
    if requests != [] {
      var now, r := requests[0].now, requests[0].request;
      EvictionKeepsCorrespondence(l, e, from, now, lastInstant);
      StepCorresponds(l, Evict(e, now), now, r, lastInstant);
      LazyRefinesEager(LazyStep(l, now, r, lastInstant).0, EagerStep(Evict(e, now), now, r).0, now, requests[1..],
        lastInstant);
    }
  }

  /** From an empty store: every reply of every run is the abstract store's. */
  lemma StoreRepliesAsEagerStore(requests: seq<Timed>, lastInstant: Instant)
    requires ClockOk(requests, 0, lastInstant)
    ensures LazyRun(map[], requests, lastInstant) == EagerRun(map[], requests)
  {
    LazyRefinesEager(map[], map[], 0, requests, lastInstant);
  }

  /** At any instant the cache check answers true exactly when a read would succeed. */
  lemma CheckIsReadability(m: map<Key, Entry>, now: Instant, key: Key, lastInstant: Instant)
    ensures LazyStep(m, now, CheckCache(key), lastInstant).1
         == Present(LazyStep(m, now, GetImage(key), lastInstant).1.data.Some?)
  {
  }

  /** A delete is final and repeatable: whatever was there, afterwards neither reads nor checks find it. */
  lemma DeleteIsIdempotent(m: map<Key, Entry>, now: Instant, later: Instant, key: Key, lastInstant: Instant)
    ensures var once := LazyStep(m, now, Delete(key), lastInstant).0;
            && LazyStep(once, later, Delete(key), lastInstant).0 == once
            && LazyStep(once, later, GetImage(key), lastInstant).1 == Image(None)
  {
  }
}
