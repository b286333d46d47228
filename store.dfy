/** The database the importer writes to, as one map from natural keys to
    records, and the get-or-create operation that never duplicates a key. */
module Store {
  import opened Wrappers
  import opened FieldCodec

  /** A Location's point, longitude first, as PostGIS expects it. */
  datatype Coords = Coords(lon: real, lat: real)

  /** The natural key each entity is looked up by: the keyword argument of its
      get_or_create call. One constructor per table. */
  datatype Key =
    | StateKey(stateCode: string)
    | CountyKey(countyCode: string)
    | LocalityKey(localityId: int)
    | CountryKey(countryCode: string)
    | ObserverKey(observerId: int)
    | LocationKey(coords: Coords)
    | ChecklistKey(checklist: int)
    | ObservationKey(observation: int)
    | SpeciesKey(scientificName: string)
    | SubSpeciesKey(subspeciesName: string)

  /** The `defaults` dictionary of each get_or_create call: the non-key
      columns a new record is created with. */
  datatype Fields =
    | StateFields(stateProvince: string)
    | CountyFields(county: string)
    | LocalityFields(localityType: string, localityName: string)
    | CountryFields(country: string)
    | ObserverFields
    | LocationFields(localityId: int, countryId: string, stateProvinceId: string, countyId: string)
    | ChecklistFields(
        locationId: nat, start: Option<DateTime>, comments: string, duration: Option<int>,
        distance: Option<Decimal>, area: Option<Decimal>, numberOfObservers: Option<int>,
        complete: bool, groupId: Option<int>, approved: bool, reviewed: bool, reason: string,
        protocol: string, projectCode: string)
    | ObservationFields(
        numberObserved: Option<string>, isX: bool, ageSex: string, speciesComments: string,
        speciesId: Option<string>, subspeciesId: Option<string>, lastEdit: Option<DateTime>,
        hasMedia: bool, checklistId: int, observerId: int)
    | SpeciesFields(commonName: string, taxonomicOrder: real, speciesCode: string)
    | SubSpeciesFields(
        commonName: string, taxonomicOrder: real, parent: Option<string>, category: int,
        subspeciesCode: string)

  /** A stored row: its natural key, the columns it was created with, and the
      surrogate id the database assigned when it was inserted. */
  datatype Record = Record(key: Key, fields: Fields, id: nat)

  /** The records visible to the session, and the next surrogate id. */
  datatype Db = Db(records: map<Key, Record>, nextId: nat)

  /** Every record is stored under its own key, with an id already drawn. */
  predicate WellFormed(db: Db) {
    forall k :: k in db.records ==> db.records[k].key == k && db.records[k].id < db.nextId
  }

  const EmptyDb: Db := Db(map[], 0)

  /** `small` is contained in `big`: no record of `small` is missing or changed. */
  predicate SubStore(small: map<Key, Record>, big: map<Key, Record>) {
    forall k :: k in small ==> k in big && big[k] == small[k]
  }

  /** Going from `before` to `after` keeps every record, and the id counter never goes back. */
  predicate Grows(before: Db, after: Db) {
    SubStore(before.records, after.records) && before.nextId <= after.nextId
  }

  lemma GrowsTransitive(a: Db, b: Db, c: Db)
    requires Grows(a, b) && Grows(b, c)
    ensures Grows(a, c)
  {
  }

  /** The outcome of get_or_create: the new store, the record and the created flag. */
  datatype Got = Got(db: Db, record: Record, created: bool)

  /** get_or_create: the record stored under `key`, or, when there is none, a
      new record built from `key` and `defaults` and added to the session. */
  function GetOrCreate(db: Db, key: Key, defaults: Fields): (g: Got)
    ensures g.created <==> key !in db.records
    ensures key in g.db.records && g.db.records[key] == g.record
    ensures !g.created ==> g.db == db
    ensures g.created ==> g.record.fields == defaults && g.record.id == db.nextId
    ensures Grows(db, g.db)
  {
    if key in db.records then Got(db, db.records[key], false)
    else
      var r := Record(key, defaults, db.nextId);
      Got(Db(db.records[key := r], db.nextId + 1), r, true)
  }

  /** get_or_create keeps the store well formed, and finds a record whose key
      is the one asked for. */
  lemma GetOrCreateWellFormed(db: Db, key: Key, defaults: Fields)
    requires WellFormed(db)
    ensures WellFormed(GetOrCreate(db, key, defaults).db)
    ensures GetOrCreate(db, key, defaults).record.key == key
  {
  }

  /** The store grows by at most one record per call. */
  lemma GetOrCreateAddsAtMostOne(db: Db, key: Key, defaults: Fields)
    ensures |GetOrCreate(db, key, defaults).db.records| <= |db.records| + 1
    ensures GetOrCreate(db, key, defaults).created ==>
      |GetOrCreate(db, key, defaults).db.records| == |db.records| + 1
  {
  }

  /** Calling get_or_create again with the same key, whatever the defaults,
      finds the first call's record and adds nothing. */
  lemma GetOrCreateTwice(db: Db, key: Key, d1: Fields, d2: Fields)
    ensures var g1 := GetOrCreate(db, key, d1);
      var g2 := GetOrCreate(g1.db, key, d2);
      g2.db == g1.db && g2.record == g1.record && !g2.created
  {
  }

  /** A get_or_create call: the natural key and the defaults. */
  type Request = (Key, Fields)

  /** get_or_create for each request in turn. */
  function GetOrCreateAll(db: Db, reqs: seq<Request>): (r: Db)
    ensures Grows(db, r)
    decreases |reqs|
  {
    if |reqs| == 0 then db
    else
      var prev := GetOrCreateAll(db, reqs[..|reqs| - 1]);
      GrowsTransitive(db, prev, GetOrCreate(prev, reqs[|reqs| - 1].0, reqs[|reqs| - 1].1).db);
      GetOrCreate(prev, reqs[|reqs| - 1].0, reqs[|reqs| - 1].1).db
  }

  /** After the calls, every requested key is stored, well formed. */
  lemma {:induction false} GetOrCreateAllStores(db: Db, reqs: seq<Request>)
    requires WellFormed(db)
    ensures WellFormed(GetOrCreateAll(db, reqs))
    ensures forall i :: 0 <= i < |reqs| ==> reqs[i].0 in GetOrCreateAll(db, reqs).records
    decreases |reqs|
  {
    if |reqs| > 0 {
      var prev := GetOrCreateAll(db, reqs[..|reqs| - 1]);
      GetOrCreateAllStores(db, reqs[..|reqs| - 1]);
      GetOrCreateWellFormed(prev, reqs[|reqs| - 1].0, reqs[|reqs| - 1].1);
      forall i | 0 <= i < |reqs| - 1 ensures reqs[i].0 in GetOrCreateAll(db, reqs).records {
        assert reqs[..|reqs| - 1][i] == reqs[i];
      }
    }
  }

  /** When every requested key is already stored, the calls change nothing. */
  lemma {:induction false} GetOrCreateAllPresent(db: Db, reqs: seq<Request>)
    requires forall i :: 0 <= i < |reqs| ==> reqs[i].0 in db.records
    ensures GetOrCreateAll(db, reqs) == db
    decreases |reqs|
  {
    if |reqs| > 0 {
      GetOrCreateAllPresent(db, reqs[..|reqs| - 1]);
    }
  }

  /** Running the same calls twice is the same as running them once. */
  lemma GetOrCreateAllIdempotent(db: Db, reqs: seq<Request>)
    requires WellFormed(db)
    ensures GetOrCreateAll(GetOrCreateAll(db, reqs), reqs) == GetOrCreateAll(db, reqs)
  {
    GetOrCreateAllStores(db, reqs);
    GetOrCreateAllPresent(GetOrCreateAll(db, reqs), reqs);
  }

  /** Every requested key is stored after the calls. */
  lemma {:induction false} GetOrCreateAllRequested(db: Db, reqs: seq<Request>, i: nat)
    requires i < |reqs|
    ensures reqs[i].0 in GetOrCreateAll(db, reqs).records
    decreases |reqs|
  {
    var n := |reqs| - 1;
    if i < n {
      GetOrCreateAllRequested(db, reqs[..n], i);
    }
  }

  /** The calls store no key that was neither stored before nor requested. */
  lemma {:induction false} GetOrCreateAllOnlyRequested(db: Db, reqs: seq<Request>, k: Key)
    requires k !in db.records
    requires forall j :: 0 <= j < |reqs| ==> reqs[j].0 != k
    ensures k !in GetOrCreateAll(db, reqs).records
    decreases |reqs|
  {
    if |reqs| > 0 {
      var n := |reqs| - 1;
      forall j | 0 <= j < n ensures reqs[..n][j].0 != k {
        assert reqs[..n][j] == reqs[j];
      }
      GetOrCreateAllOnlyRequested(db, reqs[..n], k);
    }
  }

  /** A key new to the store is created with the defaults of the first
      request for it; later requests for it find that record. */
  lemma {:induction false} GetOrCreateAllFirstWins(db: Db, reqs: seq<Request>, i: nat)
    requires i < |reqs| && reqs[i].0 !in db.records
    requires forall j :: 0 <= j < i ==> reqs[j].0 != reqs[i].0
    ensures reqs[i].0 in GetOrCreateAll(db, reqs).records
    ensures GetOrCreateAll(db, reqs).records[reqs[i].0].fields == reqs[i].1
    decreases |reqs|
  {
    var n := |reqs| - 1;
    var prev := GetOrCreateAll(db, reqs[..n]);
    if i < n {
      GetOrCreateAllFirstWins(db, reqs[..n], i);
    } else {
      GetOrCreateAllOnlyRequested(db, reqs[..n], reqs[i].0);
    }
  }

  /** The calls of a longer list extend those of its prefix. */
  lemma GetOrCreateAllSnoc(db: Db, reqs: seq<Request>, r: Request)
    ensures GetOrCreateAll(db, reqs + [r]) == GetOrCreate(GetOrCreateAll(db, reqs), r.0, r.1).db
  {
    assert (reqs + [r])[..|reqs|] == reqs;
  }

  /** The session: the records it sees (committed ones and the ones staged
      since, which a flushed nested transaction makes visible to later
      queries) and the records a commit has made durable. */
  class Session {
    var db: Db
    var durable: Db

    ghost predicate Valid()
      reads this
    {
      WellFormed(db) && SubStore(durable.records, db.records)
    }

    /** A session over a database whose committed contents are `init`. */
    constructor(init: Db)
      requires WellFormed(init)
      ensures Valid() && db == init && durable == init
    {
      db := init;
      durable := init;
    }

    /** get_or_create against this session: stages the new record, if any. */
    method GetOrCreateRecord(key: Key, defaults: Fields) returns (record: Record, created: bool)
      requires Valid()
      modifies this
      ensures Valid()
      ensures Got(db, record, created) == GetOrCreate(old(db), key, defaults)
      ensures record.key == key
      ensures durable == old(durable)
    {
      GetOrCreateWellFormed(db, key, defaults);
      if key in db.records {
        record, created := db.records[key], false;
      } else {
        record := Record(key, defaults, db.nextId);
        db := Db(db.records[key := record], db.nextId + 1);
        created := true;
      }
    }

    /** Makes everything staged durable. */
    method Commit()
      requires Valid()
      modifies this
      ensures Valid()
      ensures db == old(db) && durable == db
    {
      durable := db;
    }
  }
}
