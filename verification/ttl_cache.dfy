/** The adaptive-TTL cache shared by the endpoints: a map from video id to
    `(timestamp, data, duration)`. Time is a whole number of seconds. */
module TtlCache {
  import opened Wrappers
  import opened Formats

  /** Duration for results with few formats (ten minutes). */
  const DEFAULT_CACHE_DURATION: nat := 600
  /** Duration for format-rich results (about four hours). */
  const LONG_CACHE_DURATION: nat := 14200
  /** A result with at least this many cleaned formats is cached for the long duration. */
  const RICH_FORMAT_COUNT: nat := 12

  datatype Entry = Entry(timestamp: nat, data: StreamInfo, duration: nat)

  type Cache = map<string, Entry>

  /** Seconds since the entry was stored; negative if the clock went back. */
  function Age(e: Entry, now: nat): int {
    now - e.timestamp
  }

  /** The sweep's removal test: the entry has lived its full duration. */
  predicate Expired(e: Entry, now: nat) {
    Age(e, now) >= e.duration
  }

  /** The duration policy: long for format-rich results, default otherwise. */
  function CacheDuration(formatCount: nat): (d: nat)
    ensures d == DEFAULT_CACHE_DURATION || d == LONG_CACHE_DURATION
    ensures d == LONG_CACHE_DURATION <==> formatCount >= RICH_FORMAT_COUNT
    ensures d > 0
  {
    if formatCount >= RICH_FORMAT_COUNT then LONG_CACHE_DURATION else DEFAULT_CACHE_DURATION
  }

  /** A result with more formats is never cached for a shorter time, and a
      rich result is cached strictly longer than a poor one. */
  lemma CacheDurationMonotone(fewer: nat, more: nat)
    requires fewer <= more
    ensures CacheDuration(fewer) <= CacheDuration(more)
    ensures fewer < RICH_FORMAT_COUNT <= more ==> CacheDuration(fewer) < CacheDuration(more)
  {
  }

  /** The cleanup sweep: keep exactly the entries that are not expired at
      `now`, each with its exact tuple; add nothing. */
  function Sweep(cache: Cache, now: nat): (r: Cache)
    ensures r.Keys <= cache.Keys
    ensures forall id :: id in cache ==> (id in r <==> Age(cache[id], now) < cache[id].duration)
    ensures forall id :: id in r ==> r[id] == cache[id]
  {
    map id | id in cache && !Expired(cache[id], now) :: cache[id]
  }

  /** The number of entries a sweep at `now` removes (the count the cleanup logs). */
  function ExpiredCount(cache: Cache, now: nat): nat {
    |set id | id in cache && Expired(cache[id], now)|
  }

  /** cleanup_cache step by step: first collect the expired ids, then
      delete each of them. Returns the swept cache and how many were removed. */
  method SweepExpired(cache: Cache, now: nat) returns (r: Cache, removed: nat)
    ensures r == Sweep(cache, now)
    ensures removed == ExpiredCount(cache, now)
  {
    // Collect the ids whose entries have expired.
    var expired: set<string> := {};
    var unseen := cache.Keys;
    while unseen != {}
      invariant unseen <= cache.Keys
      invariant expired == set id | id in cache && id !in unseen && Expired(cache[id], now)
      decreases unseen
    {
      var id :| id in unseen;
      if Expired(cache[id], now) {
        expired := expired + {id};
      }
      unseen := unseen - {id};
    }
    assert expired == set id | id in cache && Expired(cache[id], now);
    // Delete them one by one.
    r := cache;
    var pending := expired;
    while pending != {}
      invariant pending <= expired
      invariant r.Keys == cache.Keys - (expired - pending)
      invariant forall id :: id in r ==> r[id] == cache[id]
      decreases pending
    {
      var id :| id in pending;
      r := r - {id};
      pending := pending - {id};
    }
    var swept := Sweep(cache, now);
    forall id
      ensures id in r.Keys <==> id in swept.Keys
    {
      assert id in expired <==> id in cache && Expired(cache[id], now);
    }
    assert forall id :: id in r ==> r[id] == swept[id];
    removed := |expired|;
  }

  /** Boundary behaviour: one second before its duration is up an entry
      survives the sweep, at the duration it is removed. */
  lemma SweepBoundary(cache: Cache, id: string)
    requires id in cache && cache[id].duration > 0
    ensures id in Sweep(cache, cache[id].timestamp + cache[id].duration - 1)
    ensures id !in Sweep(cache, cache[id].timestamp + cache[id].duration)
  {
  }

  /** Sweeping a swept cache at the same time removes nothing more. */
  lemma SweepIdempotent(cache: Cache, now: nat)
    ensures Sweep(Sweep(cache, now), now) == Sweep(cache, now)
  {
  }

  /** A later sweep removes at least what an earlier one did, and a sweep at
      `t1` followed by one at a later `t2` equals the sweep at `t2` alone. */
  lemma SweepLater(cache: Cache, t1: nat, t2: nat)
    requires t1 <= t2
    ensures Sweep(cache, t2).Keys <= Sweep(cache, t1).Keys
    ensures Sweep(Sweep(cache, t1), t2) == Sweep(cache, t2)
  {
  }

  /** The count the cleanup reports is the number of entries that disappear. */
  lemma ExpiredCountIsRemoved(cache: Cache, now: nat)
    ensures ExpiredCount(cache, now) + |Sweep(cache, now)| == |cache|
  {
    var gone := set id | id in cache && Expired(cache[id], now);
    var kept := Sweep(cache, now).Keys;
    assert cache.Keys == gone + kept;
    assert gone !! kept;
    assert |Sweep(cache, now)| == |kept|;
  }

  /** The in-handler freshness test: present and younger than its duration. */
  function Lookup(cache: Cache, id: string, now: nat): (r: Option<StreamInfo>)
    ensures r.Some? <==> id in cache && Age(cache[id], now) < cache[id].duration
    ensures r.Some? ==> r.value == cache[id].data
  {
    if id in cache && !Expired(cache[id], now) then Some(cache[id].data) else None
  }

  /** Sweeping at the lookup time changes no lookup: the sweep only discards
      what a lookup would refuse anyway. */
  lemma LookupAfterSweep(cache: Cache, id: string, now: nat)
    ensures Lookup(Sweep(cache, now), id, now) == Lookup(cache, id, now)
  {
  }

  /** When the sweep reads the clock no earlier than the handler did, every
      entry that survives it passes the handler's freshness test. */
  lemma SurvivorIsFresh(cache: Cache, id: string, now: nat, sweepNow: nat)
    requires now <= sweepNow
    requires id in Sweep(cache, sweepNow)
    ensures Lookup(Sweep(cache, sweepNow), id, now) == Some(cache[id].data)
  {
  }

  /** Store a fresh result at `now`, with the duration its format count earns,
      replacing any entry for the same id. */
  function Store(cache: Cache, id: string, now: nat, data: StreamInfo): (r: Cache)
    ensures r.Keys == cache.Keys + {id}
    ensures r[id] == Entry(now, data, CacheDuration(|data.formats|))
    ensures forall other :: other in cache && other != id ==> r[other] == cache[other]
  {
    cache[id := Entry(now, data, CacheDuration(|data.formats|))]
  }

  /** A lookup of the stored id within its duration returns exactly the
      stored data; at or past the duration it misses. */
  lemma StoreThenLookup(cache: Cache, id: string, t: nat, data: StreamInfo, now: nat)
    ensures now - t < CacheDuration(|data.formats|) ==> Lookup(Store(cache, id, t, data), id, now) == Some(data)
    ensures now - t >= CacheDuration(|data.formats|) ==> Lookup(Store(cache, id, t, data), id, now) == None
  {
  }

  /** Storing under one id leaves every lookup of another id as it was. */
  lemma StoreFrame(cache: Cache, id: string, t: nat, data: StreamInfo, other: string, now: nat)
    requires other != id
    ensures Lookup(Store(cache, id, t, data), other, now) == Lookup(cache, other, now)
  {
  }

  /** Remove an id if present; every other entry is kept as it was. */
  function Remove(cache: Cache, id: string): (r: Cache)
    ensures r.Keys == cache.Keys - {id}
    ensures forall other :: other in r ==> r[other] == cache[other]
    ensures id in cache ==> |r| == |cache| - 1
    ensures id !in cache ==> r == cache
  {
    cache - {id}
  }

  /** One row of the cache listing. */
  datatype CacheStat = CacheStat(ageSec: int, remainingSec: int, durationSec: nat)

  /** The listing of a cache at `now`: age, remaining time and duration per id. */
  function Snapshot(cache: Cache, now: nat): (r: map<string, CacheStat>)
    ensures r.Keys == cache.Keys
    ensures forall id :: id in r ==>
      && r[id].ageSec == Age(cache[id], now)
      && r[id].ageSec + r[id].remainingSec == r[id].durationSec
      && r[id].durationSec == cache[id].duration
  {
    map id | id in cache ::
      var e := cache[id];
      CacheStat(Age(e, now), e.duration - Age(e, now), e.duration)
  }

  /** Listing right after a sweep taken no earlier than the listing's own
      clock reading: every row has time remaining. */
  lemma SnapshotAfterSweepHasTimeLeft(cache: Cache, now: nat, sweepNow: nat)
    ensures now <= sweepNow ==> forall id :: id in Snapshot(Sweep(cache, sweepNow), now) ==>
      Snapshot(Sweep(cache, sweepNow), now)[id].remainingSec > 0
  {
  }
}
