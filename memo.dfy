/** The two memo layers in front of get_or_create: the `lru_cache` stubs for
    states, counties, localities and observers, and the per-run
    `create_or_cache` dictionary used for countries. */
module Memo {
  import opened Wrappers
  import opened Store
  import opened Collections

  // ---------------------------------------------------------------------------
  // The lru_cache stubs

  /** The cached result of a call: the record and the created flag it returned. */
  type Answer = (Record, bool)

  /** Every cached record is the one the store holds under its key. */
  predicate Coherent(entries: map<Request, Answer>, db: Db) {
    forall r :: r in entries ==> r.0 in db.records && entries[r].0 == db.records[r.0]
  }

  /** A cache stays coherent while the store only grows. */
  lemma CoherentGrows(entries: map<Request, Answer>, a: Db, b: Db)
    requires Coherent(entries, a) && Grows(a, b)
    ensures Coherent(entries, b)
  {
  }

  /** The recency order after a hit on `r`: it moves to the most recent end. */
  function Touch(order: seq<Request>, r: Request): seq<Request> {
    Remove(order, r) + [r]
  }

  /** The recency order after a miss on `r`: when the cache is full, the least
      recently used entry is dropped first. */
  function Admit(order: seq<Request>, r: Request, capacity: nat): seq<Request>
    requires |order| > 0 || capacity > 0
  {
    if |order| >= capacity then order[1..] + [r] else order + [r]
  }

  /** `functools.lru_cache(maxsize=capacity)` around get_or_create. */
  class LruMemo {
    const capacity: nat
    /** Cached requests, least recently used first. */
    var order: seq<Request>
    var entries: map<Request, Answer>

    ghost predicate Valid()
      reads this
    {
      0 < capacity && |order| <= capacity && Distinct(order)
      && (forall r :: r in entries <==> r in order)
    }

    constructor(maxsize: nat)
      requires 0 < maxsize
      ensures Valid() && capacity == maxsize && order == [] && entries == map[]
    {
      capacity := maxsize;
      order := [];
      entries := map[];
    }

    /** A call of the stub: a hit replays the cached pair and leaves the store
        alone; a miss runs get_or_create and caches its pair, evicting the
        least recently used entry when the cache is full. Either way the
        record is the one get_or_create would have returned uncached. */
    method Call(s: Session, r: Request) returns (record: Record, created: bool)
      requires Valid() && s.Valid() && Coherent(entries, s.db)
      modifies this, s
      ensures Valid() && s.Valid() && Coherent(entries, s.db)
      ensures s.db == GetOrCreate(old(s.db), r.0, r.1).db
      ensures record == GetOrCreate(old(s.db), r.0, r.1).record
      ensures r in old(entries) ==> s.db == old(s.db) && created == old(entries)[r].1
      ensures r in old(entries) ==> order == Touch(old(order), r) && entries == old(entries)
      ensures r !in old(entries) ==> created == GetOrCreate(old(s.db), r.0, r.1).created
      ensures r !in old(entries) ==> order == Admit(old(order), r, capacity)
      ensures r !in old(entries) ==> r in entries && entries[r] == (record, created)
      ensures r !in old(entries) ==> forall q :: q in entries && q != r ==> q in old(entries) && entries[q] == old(entries)[q]
      ensures s.durable == old(s.durable)
    {
      if r in entries {
        record, created := entries[r].0, entries[r].1;
        order := Touch(order, r);
        DistinctAppend(Remove(old(order), r), r);
      } else {
        ghost var before := s.db;
        record, created := s.GetOrCreateRecord(r.0, r.1);
        CoherentGrows(entries, before, s.db);
        if |order| >= capacity {
          DistinctTail(order);
          entries := entries - {order[0]};
          order := order[1..] + [r];
          DistinctAppend(old(order)[1..], r);
        } else {
          order := order + [r];
          DistinctAppend(old(order), r);
        }
        entries := entries[r := (record, created)];
      }
    }
  }

  /** The cache sizes of the four stubs. */
  const StateCacheSize: nat := 65536
  const CountyCacheSize: nat := 65536
  const LocalityCacheSize: nat := 262144
  const ObserverCacheSize: nat := 262144

  /** state_lru_cache_stub(state, code): a StateProvince looked up by its code. */
  function StateRequest(state: string, code: string): (r: Request)
    ensures r.0.StateKey? && r.0.stateCode == code && r.1.StateFields?
  {
    (StateKey(code), StateFields(state))
  }

  /** county_lru_cache_stub(county, code): a County looked up by its code. */
  function CountyRequest(county: string, code: string): (r: Request)
    ensures r.0.CountyKey? && r.0.countyCode == code && r.1.CountyFields?
  {
    (CountyKey(code), CountyFields(county))
  }

  /** locality_lru_cache_stub(id, type, name): a Locality looked up by its id. */
  function LocalityRequest(id: int, localityType: string, name: string): (r: Request)
    ensures r.0.LocalityKey? && r.0.localityId == id && r.1.LocalityFields?
  {
    (LocalityKey(id), LocalityFields(localityType, name))
  }

  /** observer_lru_cache_stub(id): an Observer looked up by its id, with no defaults. */
  function ObserverRequest(id: int): (r: Request)
    ensures r.0.ObserverKey? && r.0.observerId == id && r.1.ObserverFields?
  {
    (ObserverKey(id), ObserverFields)
  }

  // ---------------------------------------------------------------------------
  // create_or_cache

  /** A key cache is sound for a store when every cached value names a stored
      record. */
  predicate KeysStored(cache: map<string, Key>, db: Db) {
    forall v :: v in cache ==> cache[v] in db.records
  }

  /** The dictionary `create_or_cache` fills, from a caller's value to the
      key-column value of the record fetched for it. */
  class KeyCache {
    var cache: map<string, Key>

    constructor()
      ensures cache == map[]
    {
      cache := map[];
    }

    /** create_or_cache: the cached key for `val` or, on a miss, the key of
        the record get_or_create finds or makes, now cached under `val` and
        nowhere else. */
    method CreateOrCache(s: Session, key: Key, defaults: Fields, val: string) returns (id: Key)
      requires s.Valid() && KeysStored(cache, s.db)
      modifies this, s
      ensures s.Valid() && KeysStored(cache, s.db)
      ensures val in old(cache) ==> id == old(cache)[val] && cache == old(cache) && s.db == old(s.db)
      ensures val !in old(cache) ==>
        s.db == GetOrCreate(old(s.db), key, defaults).db && id == key && cache == old(cache)[val := id]
      ensures s.durable == old(s.durable)
    {
      if val in cache {
        id := cache[val];
      } else {
        var t, _ := s.GetOrCreateRecord(key, defaults);
        id := t.key;
        cache := cache[val := id];
      }
    }

    /** create_or_cache_or_none: nothing for an empty value, otherwise
        create_or_cache. */
    method CreateOrCacheOrNone(s: Session, key: Key, defaults: Fields, val: string) returns (id: Option<Key>)
      requires s.Valid() && KeysStored(cache, s.db)
      modifies this, s
      ensures s.Valid() && KeysStored(cache, s.db)
      ensures val == "" ==> id == None && cache == old(cache) && s.db == old(s.db)
      ensures val != "" && val in old(cache) ==> id == Some(old(cache)[val]) && cache == old(cache) && s.db == old(s.db)
      ensures val != "" && val !in old(cache) ==>
        s.db == GetOrCreate(old(s.db), key, defaults).db && id == Some(key) && cache == old(cache)[val := key]
      ensures s.durable == old(s.durable)
    {
      if val == "" {
        id := None;
      } else {
        var k := CreateOrCache(s, key, defaults, val);
        id := Some(k);
      }
    }
  }

  /** A cached key names a stored record, so get_or_create on that key
      finds it and changes nothing: a hit leaves the store exactly as an
      uncached call would. */
  lemma CachedHitIsUncached(cache: map<string, Key>, db: Db, val: string, key: Key, defaults: Fields)
    requires WellFormed(db) && KeysStored(cache, db) && val in cache && cache[val] == key
    ensures GetOrCreate(db, key, defaults).db == db
    ensures GetOrCreate(db, key, defaults).record.key == key
  {
  }
}
