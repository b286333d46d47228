/** parse_ebird_dump: every row of the observation file resolved into
    get_or_create calls, the session committed every thousand rows, and the
    three ways a run ends (the file exhausted, an interrupt, an exception). */
module Pipeline {
  import opened Wrappers
  import opened FieldCodec
  import opened Store
  import opened Memo
  import opened Taxonomy
  import opened RowDecode

  // ---------------------------------------------------------------------------
  // One row's get_or_create calls

  /** subspecies_sci_names: the scientific names of the stored SubSpecies. */
  function SubspeciesNames(db: Db): (names: set<string>)
    ensures forall n :: n in names <==> SubSpeciesKey(n) in db.records
  {
    set k | k in db.records && k.SubSpeciesKey? :: k.subspeciesName
  }

  /** The Country call, behind create_or_cache. */
  function CountryRequest(d: DecodedRow): (r: Request)
    ensures r.0 == CountryKey(d.place.countryCode) && r.1.CountryFields?
  {
    (CountryKey(d.place.countryCode), CountryFields(d.place.country))
  }

  /** The Location call: the point, with the ids of its locality and regions. */
  function LocationRequest(d: DecodedRow): (r: Request)
    ensures r.0 == LocationKey(d.observed.coords)
    ensures r.1 == LocationFields(d.place.localityId, d.place.countryCode, d.place.stateCode, d.place.countyCode)
  {
    (LocationKey(d.observed.coords),
     LocationFields(d.place.localityId, d.place.countryCode, d.place.stateCode, d.place.countyCode))
  }

  /** The Checklist call, given the surrogate id of the checklist's Location. */
  function ChecklistRequest(d: DecodedRow, locationId: nat): (r: Request)
    ensures r.0 == ChecklistKey(d.observation.checklistId)
    ensures r.1.ChecklistFields? && r.1.locationId == locationId && r.1.protocol == d.review.protocol
  {
    var e := d.effort;
    var v := d.review;
    (ChecklistKey(d.observation.checklistId),
     ChecklistFields(locationId, e.startDuration.start, e.comments, e.startDuration.duration, e.distance,
                     e.area, e.numberOfObservers, v.complete, v.groupId, v.approved, v.reviewed, v.reason,
                     v.protocol, v.projectCode))
  }

  /** The Observation call. The checklist and the observer are found by the
      ids read from the row, so their key columns hold those ids. */
  function ObservationRequest(d: DecodedRow): (r: Request)
    ensures r.0 == ObservationKey(d.observation.observationId)
    ensures r.1.ObservationFields? && r.1.checklistId == d.observation.checklistId
    ensures r.1.observerId == d.observed.observerId
    ensures r.1.speciesId == d.observation.taxon.speciesId && r.1.subspeciesId == d.observation.taxon.subspeciesId
  {
    var o := d.observation;
    (ObservationKey(o.observationId),
     ObservationFields(o.count.numberObserved, o.count.isX, o.ageSex, o.speciesComments, o.taxon.speciesId,
                       o.taxon.subspeciesId, d.edited.lastEdit, d.edited.hasMedia, o.checklistId,
                       d.observed.observerId))
  }

  /** The store after one request. */
  function Apply(db: Db, r: Request): Db {
    GetOrCreate(db, r.0, r.1).db
  }

  /** The surrogate id of the Location stored under `coords` (the Checklist
      call comes after the Location call, so one is always there). */
  function LocationId(db: Db, coords: Coords): nat {
    if LocationKey(coords) in db.records then db.records[LocationKey(coords)].id else 0
  }

  /** The number of get_or_create calls a row makes. */
  const RowCalls: nat := 8

  /** The key of the row's call number `k`: the state, county, locality,
      country and observer lookups, then the Location, the Checklist and the
      Observation. */
  function RowKey(d: DecodedRow, k: nat): Key
    requires k < RowCalls
  {
    if k == 0 then StateKey(d.place.stateCode)
    else if k == 1 then CountyKey(d.place.countyCode)
    else if k == 2 then LocalityKey(d.place.localityId)
    else if k == 3 then CountryKey(d.place.countryCode)
    else if k == 4 then ObserverKey(d.observed.observerId)
    else if k == 5 then LocationKey(d.observed.coords)
    else if k == 6 then ChecklistKey(d.observation.checklistId)
    else ObservationKey(d.observation.observationId)
  }

  /** The defaults of the row's call number `k`, made on the store `db` the
      earlier calls left. */
  function RowFields(d: DecodedRow, k: nat, db: Db): Fields
    requires k < RowCalls
  {
    var p := d.place;
    if k == 0 then StateRequest(p.state, p.stateCode).1
    else if k == 1 then CountyRequest(p.county, p.countyCode).1
    else if k == 2 then LocalityRequest(p.localityId, p.localityType, p.localityName).1
    else if k == 3 then CountryRequest(d).1
    else if k == 4 then ObserverRequest(d.observed.observerId).1
    else if k == 5 then LocationRequest(d).1
    else if k == 6 then ChecklistRequest(d, LocationId(db, d.observed.coords)).1
    else ObservationRequest(d).1
  }

  /** The row's call number `k`. */
  function RowRequest(d: DecodedRow, k: nat, db: Db): Request
    requires k < RowCalls
  {
    (RowKey(d, k), RowFields(d, k, db))
  }

  /** The store after the row's first `n` calls. */
  function Resolved(db: Db, d: DecodedRow, n: nat): Db
    requires n <= RowCalls
    decreases n, db
  {
    if n == 0 then db
    else
      var prev := Resolved(db, d, n - 1);
      Apply(prev, RowRequest(d, n - 1, prev))
  }

  /** Lines 238-291: the lookups, then the Location, then the Checklist
      pointing at the Location's id, then the Observation. */
  function ResolveRow(db: Db, d: DecodedRow): Db {
    Resolved(db, d, RowCalls)
  }

  /** The keys of the row's first `n` calls. */
  function KeysUpTo(d: DecodedRow, n: nat): set<Key>
    requires n <= RowCalls
  {
    if n == 0 then {} else KeysUpTo(d, n - 1) + {RowKey(d, n - 1)}
  }

  /** The natural keys a row asks for. */
  function RowKeys(d: DecodedRow): set<Key> {
    KeysUpTo(d, RowCalls)
  }

  lemma {:induction false} KeysUpToHas(d: DecodedRow, j: nat, n: nat)
    requires j < n <= RowCalls
    ensures RowKey(d, j) in KeysUpTo(d, n)
    decreases n
  {
    if j < n - 1 {
      KeysUpToHas(d, j, n - 1);
    }
  }

  /** One request stores its key, keeps every record and keeps the store well formed. */
  lemma ApplyStep(db: Db, r: Request)
    ensures Apply(db, r).records.Keys == db.records.Keys + {r.0}
    ensures Grows(db, Apply(db, r))
    ensures WellFormed(db) ==> WellFormed(Apply(db, r))
  {
    if WellFormed(db) {
      GetOrCreateWellFormed(db, r.0, r.1);
    }
  }

  /** The calls keep every record and keep the store well formed. */
  lemma {:induction false} ResolvedGrows(db: Db, d: DecodedRow, n: nat)
    requires n <= RowCalls
    ensures Grows(db, Resolved(db, d, n))
    ensures WellFormed(db) ==> WellFormed(Resolved(db, d, n))
    decreases n
  {
    if n > 0 {
      var prev := Resolved(db, d, n - 1);
      ResolvedGrows(db, d, n - 1);
      ApplyStep(prev, RowRequest(d, n - 1, prev));
      GrowsTransitive(db, prev, Resolved(db, d, n));
    }
  }

  /** The calls store exactly the keys they ask for besides those already stored. */
  lemma {:induction false} ResolvedKeys(db: Db, d: DecodedRow, n: nat)
    requires n <= RowCalls
    ensures Resolved(db, d, n).records.Keys == db.records.Keys + KeysUpTo(d, n)
    decreases n
  {
    if n > 0 {
      ResolvedKeys(db, d, n - 1);
      ResolvedAddsKey(db, d, n);
      UnionStep(db.records.Keys, Resolved(db, d, n - 1).records.Keys, KeysUpTo(d, n - 1), RowKey(d, n - 1));
    }
  }

  lemma UnionStep(stored: set<Key>, before: set<Key>, asked: set<Key>, key: Key)
    requires before == stored + asked
    ensures before + {key} == stored + (asked + {key})
  {
  }

  /** Each call adds its own key to the stored ones, and no other. */
  lemma ResolvedAddsKey(db: Db, d: DecodedRow, n: nat)
    requires 0 < n <= RowCalls
    ensures Resolved(db, d, n).records.Keys == Resolved(db, d, n - 1).records.Keys + {RowKey(d, n - 1)}
  {
    var prev := Resolved(db, d, n - 1);
    ApplyStep(prev, RowRequest(d, n - 1, prev));
  }

  /** A key none of the calls asks for is stored afterwards exactly when it was before. */
  lemma {:induction false} ResolvedOnly(db: Db, d: DecodedRow, n: nat, k: Key)
    requires n <= RowCalls
    requires forall j :: 0 <= j < n ==> RowKey(d, j) != k
    ensures k in Resolved(db, d, n).records <==> k in db.records
    decreases n
  {
    if n > 0 {
      ResolvedOnly(db, d, n - 1, k);
    }
  }

  /** Calls whose keys are all stored change nothing. */
  lemma {:induction false} ResolvedPresent(db: Db, d: DecodedRow, n: nat)
    requires n <= RowCalls && KeysUpTo(d, n) <= db.records.Keys
    ensures Resolved(db, d, n) == db
    decreases n
  {
    if n > 0 {
      ResolvedPresent(db, d, n - 1);
    }
  }

  /** A row stores exactly the keys it asks for, adds no other, and keeps
      every record already there. */
  lemma ResolveRowGrows(db: Db, d: DecodedRow)
    ensures Grows(db, ResolveRow(db, d))
    ensures WellFormed(db) ==> WellFormed(ResolveRow(db, d))
  {
    ResolvedGrows(db, d, RowCalls);
  }

  lemma ResolveRowKeys(db: Db, d: DecodedRow)
    ensures ResolveRow(db, d).records.Keys == db.records.Keys + RowKeys(d)
  {
    ResolvedKeys(db, d, RowCalls);
  }

  /** A row whose every key is already stored changes nothing: rows can be
      imported again. */
  lemma ResolveRowPresent(db: Db, d: DecodedRow)
    requires RowKeys(d) <= db.records.Keys
    ensures ResolveRow(db, d) == db
  {
    ResolvedPresent(db, d, RowCalls);
  }

  /** Resolving the same row twice is resolving it once. */
  lemma ResolveRowIdempotent(db: Db, d: DecodedRow)
    ensures ResolveRow(ResolveRow(db, d), d) == ResolveRow(db, d)
  {
    ResolveRowKeys(db, d);
    ResolveRowPresent(ResolveRow(db, d), d);
  }

  /** A row giving an observation id for the first time creates its
      Observation with the row's checklist, observer and taxon. */
  lemma ResolveRowCreatesObservation(db: Db, d: DecodedRow)
    requires ObservationKey(d.observation.observationId) !in db.records
    ensures ObservationKey(d.observation.observationId) in ResolveRow(db, d).records
    ensures ResolveRow(db, d).records[ObservationKey(d.observation.observationId)].fields == ObservationRequest(d).1
  {
    ResolvedOnly(db, d, 7, ObservationKey(d.observation.observationId));
  }

  /** A raw row that decodes and names a new observation stores it with the
      species and subspecies the remap picks from the row's category and
      names: a spuh, slash or hybrid has no species and points at the
      SubSpecies of its own scientific name. */
  lemma StoredTaxonOfRow(db: Db, row: Row, known: set<string>, d: DecodedRow)
    requires DecodeRow(row, known) == Success(d)
    requires ObservationKey(d.observation.observationId) !in db.records
    ensures "CATEGORY" in row && "SCIENTIFIC NAME" in row && "SUBSPECIES SCIENTIFIC NAME" in row
    ensures var key := ObservationKey(d.observation.observationId);
      var t := Remap(row["CATEGORY"], row["SCIENTIFIC NAME"], row["SUBSPECIES SCIENTIFIC NAME"], known);
      var stored := ResolveRow(db, d).records;
      key in stored && stored[key].fields.ObservationFields?
      && stored[key].fields.speciesId == t.speciesId && stored[key].fields.subspeciesId == t.subspeciesId
      && (IsAggregate(row["CATEGORY"]) ==>
            stored[key].fields.speciesId == None && stored[key].fields.subspeciesId == Some(row["SCIENTIFIC NAME"]))
  {
    ResolveRowCreatesObservation(db, d);
  }

  /** A row giving a checklist id for the first time creates its Checklist
      pointing at the id of the Location stored under the row's point. */
  lemma ResolveRowCreatesChecklist(db: Db, d: DecodedRow)
    requires ChecklistKey(d.observation.checklistId) !in db.records
    ensures var r := ResolveRow(db, d);
      ChecklistKey(d.observation.checklistId) in r.records && LocationKey(d.observed.coords) in r.records
      && r.records[ChecklistKey(d.observation.checklistId)].fields == ChecklistRequest(d, r.records[LocationKey(d.observed.coords)].id).1
  {
    var db6 := Resolved(db, d, 6);
    var db7 := Resolved(db, d, 7);
    ResolvedOnly(db, d, 6, ChecklistKey(d.observation.checklistId));
    ResolvedKeys(db, d, 6);
    KeysUpToHas(d, 5, 6);
    ApplyStep(db6, RowRequest(d, 6, db6));
    ApplyStep(db7, RowRequest(d, 7, db7));
    GrowsTransitive(db6, db7, ResolveRow(db, d));
  }

  // ---------------------------------------------------------------------------
  // Foreign keys

  /** Some stored Location carries the surrogate id `id`. */
  predicate LocationWithId(db: Db, id: nat) {
    exists k :: k in db.records && k.LocationKey? && db.records[k].id == id
  }

  /** The records a record's columns point at are stored: a Location's
      locality, country, state and county, a Checklist's Location, an
      Observation's Checklist and Observer. */
  predicate FieldsLinked(db: Db, f: Fields) {
    match f
    case LocationFields(locality, country, state, county) =>
      LocalityKey(locality) in db.records && CountryKey(country) in db.records
      && StateKey(state) in db.records && CountyKey(county) in db.records
    case ChecklistFields(_, _, _, _, _, _, _, _, _, _, _, _, _, _) => LocationWithId(db, f.locationId)
    case ObservationFields(_, _, _, _, _, _, _, _, _, _) =>
      ChecklistKey(f.checklistId) in db.records && ObserverKey(f.observerId) in db.records
    case _ => true
  }

  /** Every stored record's foreign keys resolve. */
  predicate Linked(db: Db) {
    forall k :: k in db.records ==> FieldsLinked(db, db.records[k].fields)
  }

  lemma FieldsLinkedGrows(a: Db, b: Db, f: Fields)
    requires Grows(a, b) && FieldsLinked(a, f)
    ensures FieldsLinked(b, f)
  {
    if f.ChecklistFields? {
      var k :| k in a.records && k.LocationKey? && a.records[k].id == f.locationId;
      assert k in b.records && b.records[k] == a.records[k];
    }
  }

  /** A call whose defaults point only at stored records keeps the store linked. */
  lemma ApplyLinked(db: Db, r: Request)
    requires Linked(db) && FieldsLinked(db, r.1)
    ensures Linked(Apply(db, r))
  {
    var after := Apply(db, r);
    forall k | k in after.records ensures FieldsLinked(after, after.records[k].fields) {
      if k in db.records {
        FieldsLinkedGrows(db, after, db.records[k].fields);
      } else {
        FieldsLinkedGrows(db, after, r.1);
      }
    }
  }

  /** Each call of a row points only at records the earlier calls stored. */
  lemma RowRequestLinked(db: Db, d: DecodedRow, k: nat)
    requires k < RowCalls
    ensures FieldsLinked(Resolved(db, d, k), RowRequest(d, k, Resolved(db, d, k)).1)
  {
    var prev := Resolved(db, d, k);
    ResolvedKeys(db, d, k);
    if k == 5 {
      KeysUpToHas(d, 0, 5);
      KeysUpToHas(d, 1, 5);
      KeysUpToHas(d, 2, 5);
      KeysUpToHas(d, 3, 5);
    } else if k == 6 {
      KeysUpToHas(d, 5, 6);
      assert LocationKey(d.observed.coords) in prev.records;
    } else if k == 7 {
      KeysUpToHas(d, 4, 7);
      KeysUpToHas(d, 6, 7);
    }
  }

  /** Lines 238-246 ask for every record a row's Location, Checklist and
      Observation point at before asking for those: a linked store stays
      linked. */
  lemma {:induction false} ResolvedLinked(db: Db, d: DecodedRow, n: nat)
    requires n <= RowCalls && Linked(db)
    ensures Linked(Resolved(db, d, n))
    decreases n
  {
    if n > 0 {
      ResolvedLinked(db, d, n - 1);
      ResolvedStaysLinked(db, d, n);
    }
  }

  /** One more call keeps the store's foreign keys resolving. */
  lemma ResolvedStaysLinked(db: Db, d: DecodedRow, n: nat)
    requires 0 < n <= RowCalls && Linked(Resolved(db, d, n - 1))
    ensures Linked(Resolved(db, d, n))
  {
    var prev := Resolved(db, d, n - 1);
    RowRequestLinked(db, d, n - 1);
    ApplyLinked(prev, RowRequest(d, n - 1, prev));
  }

  lemma ResolveRowLinked(db: Db, d: DecodedRow)
    requires Linked(db)
    ensures Linked(ResolveRow(db, d))
  {
    ResolvedLinked(db, d, RowCalls);
  }

  /** The store's taxa: the rows never add a Species or a SubSpecies, so the
      names the remap consults stay those read before the loop. */
  lemma ResolveRowKeepsTaxa(db: Db, d: DecodedRow)
    ensures SubspeciesNames(ResolveRow(db, d)) == SubspeciesNames(db)
  {
    forall n ensures SubSpeciesKey(n) in ResolveRow(db, d).records <==> SubSpeciesKey(n) in db.records {
      ResolvedOnly(db, d, RowCalls, SubSpeciesKey(n));
    }
  }

  // ---------------------------------------------------------------------------
  // The run

  /** COMMIT_BATCH: rows imported between commits. */
  const CommitBatch: nat := 1000

  /** The count a row brings the loop to is a batch multiple: time to commit. */
  predicate BatchEnd(count: nat) {
    count % CommitBatch == 0
  }

  /** start_row, the SubSpecies names read before the loop, and the row, if
      any, before which the run is interrupted with ctrl-c. */
  datatype Config = Config(startRow: int, known: set<string>, interrupt: Option<nat>)

  /** Still reading rows, stopped by ctrl-c, or stopped by an exception. */
  datatype Status = Running | Interrupted | Raised(fault: Fault)

  /** The session's two views of the store, the rows counted, and how the loop stands. */
  datatype RunState = RunState(db: Db, durable: Db, count: nat, status: Status)

  function Start(db: Db, durable: Db): RunState {
    RunState(db, durable, 0, Running)
  }

  /** The session invariant of a run: a well formed, linked store that
      contains what is durable. */
  predicate Consistent(st: RunState) {
    WellFormed(st.db) && Linked(st.db) && Grows(st.durable, st.db)
  }

  /** The loop body on row `i`: ctrl-c commits and stops; a row before
      start_row is only counted; a KeyError stops without a commit; any other
      exception commits and stops; a row that decodes is resolved, counted,
      and committed when the count reaches a batch multiple. */
  function Step(cfg: Config, st: RunState, i: nat, row: Parsed<DecodedRow>): RunState
    requires st.status.Running?
  {
    if cfg.interrupt == Some(i) then RunState(st.db, st.db, st.count, Interrupted)
    else if st.count < cfg.startRow then RunState(st.db, st.durable, st.count + 1, Running)
    else match row
      case Failure(e) =>
        if e.LookupFault? then RunState(st.db, st.durable, st.count, Raised(e))
        else RunState(st.db, st.db, st.count, Raised(e))
      case Success(d) => Import(st, d)
  }

  /** A decoded row resolved, counted, and committed when the count reaches
      a batch multiple. */
  function Import(st: RunState, d: DecodedRow): RunState {
    var db := ResolveRow(st.db, d);
    var count := st.count + 1;
    RunState(db, if BatchEnd(count) then db else st.durable, count, Running)
  }

  /** Each row decoded on its own: decoding reads nothing from the store. */
  function DecodeAll(rows: seq<Row>, known: set<string>): (decoded: seq<Parsed<DecodedRow>>)
    ensures |decoded| == |rows|
    ensures forall i :: 0 <= i < |rows| ==> decoded[i] == DecodeRow(rows[i], known)
  {
    seq(|rows|, i requires 0 <= i < |rows| => DecodeRow(rows[i], known))
  }

  /** The loop over the first `n` rows, each given as what it decodes to. */
  function RunUpTo(cfg: Config, init: RunState, rows: seq<Parsed<DecodedRow>>, n: nat): RunState
    requires n <= |rows|
    decreases n
  {
    if n == 0 then init
    else
      var prev := RunUpTo(cfg, init, rows, n - 1);
      if prev.status.Running? then Step(cfg, prev, n - 1, rows[n - 1]) else prev
  }

  /** The closing commit after the loop, which a raised exception skips. */
  function Finish(st: RunState): RunState {
    if st.status.Raised? then st else st.(durable := st.db)
  }

  /** The whole loop over decoded rows, and the closing commit. */
  function RunDecoded(cfg: Config, init: RunState, rows: seq<Parsed<DecodedRow>>): RunState {
    Finish(RunUpTo(cfg, init, rows, |rows|))
  }

  /** The whole loop over the file's rows, and the closing commit. */
  function Run(cfg: Config, init: RunState, rows: seq<Row>): RunState {
    RunDecoded(cfg, init, DecodeAll(rows, cfg.known))
  }

  /** Every step keeps the session invariant and only adds records. */
  lemma StepConsistent(cfg: Config, st: RunState, i: nat, row: Parsed<DecodedRow>)
    requires st.status.Running? && Consistent(st)
    ensures Consistent(Step(cfg, st, i, row))
    ensures Grows(st.db, Step(cfg, st, i, row).db) && Grows(st.durable, Step(cfg, st, i, row).durable)
  {
    if cfg.interrupt != Some(i) && st.count >= cfg.startRow && row.Success? {
      var d := row.value;
      ResolveRowGrows(st.db, d);
      ResolveRowLinked(st.db, d);
      GrowsTransitive(st.durable, st.db, ResolveRow(st.db, d));
    }
  }

  /** The run keeps the session invariant, and neither view of the store
      loses a record. */
  lemma {:induction false} RunConsistent(cfg: Config, init: RunState, rows: seq<Parsed<DecodedRow>>, n: nat)
    requires n <= |rows| && Consistent(init)
    ensures Consistent(RunUpTo(cfg, init, rows, n))
    ensures Grows(init.db, RunUpTo(cfg, init, rows, n).db)
    ensures Grows(init.durable, RunUpTo(cfg, init, rows, n).durable)
    decreases n
  {
    if n > 0 {
      var prev := RunUpTo(cfg, init, rows, n - 1);
      RunConsistent(cfg, init, rows, n - 1);
      if prev.status.Running? {
        StepConsistent(cfg, prev, n - 1, rows[n - 1]);
        GrowsTransitive(init.db, prev.db, RunUpTo(cfg, init, rows, n).db);
        GrowsTransitive(init.durable, prev.durable, RunUpTo(cfg, init, rows, n).durable);
      }
    }
  }

  /** While the loop runs, `count` is the number of rows read, and a stopped
      loop stopped on the row its count names. */
  lemma {:induction false} RunCount(cfg: Config, init: RunState, rows: seq<Parsed<DecodedRow>>, n: nat)
    requires n <= |rows| && init == Start(init.db, init.durable)
    ensures RunUpTo(cfg, init, rows, n).status.Running? ==> RunUpTo(cfg, init, rows, n).count == n
    ensures RunUpTo(cfg, init, rows, n).count <= n
    decreases n
  {
    if n > 0 {
      RunCount(cfg, init, rows, n - 1);
    }
  }

  /** A stopped loop stopped on the row its count names. */
  lemma {:induction false} RunStopsAtCount(cfg: Config, init: RunState, rows: seq<Parsed<DecodedRow>>, n: nat)
    requires n <= |rows| && init == Start(init.db, init.durable)
    requires !RunUpTo(cfg, init, rows, n).status.Running?
    ensures var c := RunUpTo(cfg, init, rows, n).count;
      c < n && RunUpTo(cfg, init, rows, c).status.Running?
      && RunUpTo(cfg, init, rows, c + 1) == RunUpTo(cfg, init, rows, n)
    decreases n
  {
    var prev := RunUpTo(cfg, init, rows, n - 1);
    if prev.status.Running? {
      RunCount(cfg, init, rows, n - 1);
    } else {
      RunStopsAtCount(cfg, init, rows, n - 1);
    }
  }

  /** Once stopped, the loop stays stopped. */
  lemma {:induction false} RunStopped(cfg: Config, init: RunState, rows: seq<Parsed<DecodedRow>>, i: nat, n: nat)
    requires i <= n <= |rows| && !RunUpTo(cfg, init, rows, i).status.Running?
    ensures RunUpTo(cfg, init, rows, n) == RunUpTo(cfg, init, rows, i)
    decreases n
  {
    if i < n {
      RunStopped(cfg, init, rows, i, n - 1);
    }
  }

  /** The rows before start_row are counted and nothing else: the store is
      untouched and, unless interrupted, nothing is committed. */
  lemma {:induction false} RunSkips(cfg: Config, init: RunState, rows: seq<Parsed<DecodedRow>>, n: nat)
    requires n <= |rows| && init == Start(init.db, init.durable) && n <= cfg.startRow
    ensures RunUpTo(cfg, init, rows, n).db == init.db
    ensures RunUpTo(cfg, init, rows, n).status.Running? || RunUpTo(cfg, init, rows, n).status.Interrupted?
    ensures cfg.interrupt.None? ==> RunUpTo(cfg, init, rows, n).status.Running?
    ensures RunUpTo(cfg, init, rows, n).status.Running? ==>
      RunUpTo(cfg, init, rows, n) == RunState(init.db, init.durable, n, Running)
    decreases n
  {
    if n > 0 {
      RunSkips(cfg, init, rows, n - 1);
    }
  }

  // ---------------------------------------------------------------------------
  // The commit schedule

  /** The loop commits after the row that brings the count to `c`: a batch
      multiple reached by importing a row rather than skipping one. */
  predicate CommitsAt(cfg: Config, c: nat) {
    0 < c && BatchEnd(c) && cfg.startRow < c
  }

  /** The last count up to `n` after which the loop commits. */
  function LastCommit(cfg: Config, n: nat): (r: Option<nat>)
    ensures r.Some? ==> r.value <= n && CommitsAt(cfg, r.value)
    ensures forall c :: (if r.Some? then r.value else 0) < c <= n ==> !CommitsAt(cfg, c)
    decreases n
  {
    if n == 0 then None
    else if CommitsAt(cfg, n) then Some(n)
    else LastCommit(cfg, n - 1)
  }

  /** What is durable while the loop runs is the store as it stood after the
      last batch commit, or what was durable before the loop. */
  lemma {:induction false} RunDurable(cfg: Config, init: RunState, rows: seq<Parsed<DecodedRow>>, n: nat)
    requires n <= |rows| && init == Start(init.db, init.durable)
    requires RunUpTo(cfg, init, rows, n).status.Running?
    ensures LastCommit(cfg, n).None? ==> RunUpTo(cfg, init, rows, n).durable == init.durable
    ensures LastCommit(cfg, n).Some? ==>
      RunUpTo(cfg, init, rows, n).durable == RunUpTo(cfg, init, rows, LastCommit(cfg, n).value).db
    decreases n
  {
    if n > 0 {
      RunDurable(cfg, init, rows, n - 1);
      RunCount(cfg, init, rows, n - 1);
    }
  }

  /** Fewer than a batch of imported rows is ever staged but not durable:
      the last commit is less than a batch behind, and with none yet the loop
      is less than a batch past start_row. */
  lemma LastCommitRecent(cfg: Config, n: nat)
    ensures LastCommit(cfg, n).Some? ==> n - LastCommit(cfg, n).value < CommitBatch
    ensures LastCommit(cfg, n).None? ==> n < CommitBatch || n < cfg.startRow + CommitBatch
  {
    var c := n - n % CommitBatch;
    if CommitBatch <= n && cfg.startRow + CommitBatch <= n {
      assert CommitsAt(cfg, c);
    }
  }

  /** The first commit of a run comes at the first batch multiple past
      start_row, however few rows that leaves to import: a resumed run does
      not wait for a full batch. */
  lemma FirstCommit(cfg: Config)
    ensures var c := if cfg.startRow < 0 then CommitBatch else (cfg.startRow / CommitBatch + 1) * CommitBatch;
      CommitsAt(cfg, c) && (cfg.startRow >= 0 ==> c - cfg.startRow <= CommitBatch)
      && forall c' :: 0 <= c' < c ==> !CommitsAt(cfg, c')
  {
    if cfg.startRow >= 0 {
      var q := cfg.startRow / CommitBatch;
      forall c' | 0 <= c' < (q + 1) * CommitBatch ensures !CommitsAt(cfg, c') {
        if BatchEnd(c') {
          var q' := c' / CommitBatch;
          assert c' == q' * CommitBatch;
          assert q' <= q;
          assert c' <= cfg.startRow;
        }
      }
    }
  }

  // ---------------------------------------------------------------------------
  // How a run ends

  /** A row that raises ends the run on that row. No get_or_create of the
      row has run, since every decode precedes them; a KeyError leaves
      durable only what the last commit made durable, any other exception
      commits what the earlier rows staged. */
  lemma RunRaises(cfg: Config, init: RunState, rows: seq<Parsed<DecodedRow>>, i: nat)
    requires i < |rows| && RunUpTo(cfg, init, rows, i).status.Running?
    requires cfg.interrupt != Some(i) && cfg.startRow <= RunUpTo(cfg, init, rows, i).count && rows[i].Failure?
    ensures var before := RunUpTo(cfg, init, rows, i);
      var r := RunDecoded(cfg, init, rows);
      r.status == Raised(rows[i].error) && r.db == before.db && r.count == before.count
      && (rows[i].error.LookupFault? ==> r.durable == before.durable)
      && (rows[i].error.ParseFault? ==> r.durable == before.db)
  {
    RunStopped(cfg, init, rows, i + 1, |rows|);
  }

  /** The same for the file's rows: a KeyError names a column the row lacks,
      or the protocol name the protocol table lacks. */
  lemma RunRaisesOnRow(cfg: Config, init: RunState, rows: seq<Row>, i: nat)
    requires i < |rows| && init == Start(init.db, init.durable) && cfg.interrupt != Some(i) && cfg.startRow <= i
    requires RunUpTo(cfg, init, DecodeAll(rows, cfg.known), i).status.Running?
    requires DecodeRow(rows[i], cfg.known).Failure?
    ensures var e := DecodeRow(rows[i], cfg.known).error;
      var before := RunUpTo(cfg, init, DecodeAll(rows, cfg.known), i);
      var r := Run(cfg, init, rows);
      r.status == Raised(e) && r.db == before.db
      && (e.LookupFault? ==> r.durable == before.durable)
      && (e.ParseFault? ==> r.durable == before.db)
      && (e.LookupFault? ==> e.name !in rows[i] || ("PROTOCOL TYPE" in rows[i] && e.name == rows[i]["PROTOCOL TYPE"]))
  {
    RunCount(cfg, init, DecodeAll(rows, cfg.known), i);
    RunRaises(cfg, init, DecodeAll(rows, cfg.known), i);
  }

  /** ctrl-c before row `i` commits everything staged and ends the run with
      the store as the earlier rows left it. */
  lemma RunInterrupted(cfg: Config, init: RunState, rows: seq<Parsed<DecodedRow>>, i: nat)
    requires i < |rows| && cfg.interrupt == Some(i) && RunUpTo(cfg, init, rows, i).status.Running?
    ensures var before := RunUpTo(cfg, init, rows, i);
      RunDecoded(cfg, init, rows) == RunState(before.db, before.db, before.count, Interrupted)
  {
    RunStopped(cfg, init, rows, i + 1, |rows|);
  }

  /** Before the interrupt, an interrupted run is the uninterrupted one. */
  lemma {:induction false} RunBeforeInterrupt(cfg: Config, init: RunState, rows: seq<Parsed<DecodedRow>>, n: nat)
    requires cfg.interrupt.Some? && n <= cfg.interrupt.value && n <= |rows|
    ensures RunUpTo(cfg, init, rows, n) == RunUpTo(cfg.(interrupt := None), init, rows, n)
    decreases n
  {
    if n > 0 {
      RunBeforeInterrupt(cfg, init, rows, n - 1);
    }
  }

  /** The rows never add a taxon, so the names read before the loop are
      still the store's. */
  lemma {:induction false} RunKeepsTaxa(cfg: Config, init: RunState, rows: seq<Parsed<DecodedRow>>, n: nat)
    requires n <= |rows|
    ensures SubspeciesNames(RunUpTo(cfg, init, rows, n).db) == SubspeciesNames(init.db)
    decreases n
  {
    if n > 0 {
      RunKeepsTaxa(cfg, init, rows, n - 1);
      var prev := RunUpTo(cfg, init, rows, n - 1);
      if prev.status.Running? && cfg.interrupt != Some(n - 1) && cfg.startRow <= prev.count && rows[n - 1].Success? {
        ResolveRowKeepsTaxa(prev.db, rows[n - 1].value);
      }
    }
  }

  // ---------------------------------------------------------------------------
  // Running again

  /** Restarting at row `c` from the store an unbroken run had reached there
      goes on exactly as that run does. */
  lemma {:induction false} Resumes(cfg: Config, init: RunState, rows: seq<Parsed<DecodedRow>>, c: nat, resumed: RunState, n: nat)
    requires cfg.interrupt.None? && init == Start(init.db, init.durable)
    requires cfg.startRow <= c <= n <= |rows| && RunUpTo(cfg, init, rows, c).status.Running?
    requires resumed == Start(RunUpTo(cfg, init, rows, c).db, resumed.durable)
    ensures var a := RunUpTo(cfg.(startRow := c), resumed, rows, n);
      var b := RunUpTo(cfg, init, rows, n);
      a.db == b.db && a.count == b.count && a.status == b.status
    decreases n
  {
    RunCount(cfg, init, rows, c);
    if n == c {
      RunSkips(cfg.(startRow := c), resumed, rows, c);
    } else {
      Resumes(cfg, init, rows, c, resumed, n - 1);
      RunCount(cfg, init, rows, n - 1);
    }
  }

  /** After ctrl-c before row `c`, a new run started at row `c` on what the
      first made durable, reading the subspecies names again from it, ends
      as the run that was never interrupted. */
  lemma ResumeAfterInterrupt(cfg: Config, init: RunState, rows: seq<Row>, c: nat)
    requires init == Start(init.db, init.durable) && cfg.known == SubspeciesNames(init.db)
    requires cfg.interrupt == Some(c) && cfg.startRow <= c < |rows|
    requires RunUpTo(cfg, init, DecodeAll(rows, cfg.known), c).status.Running?
    ensures var first := Run(cfg, init, rows);
      first.status == Interrupted && first.count == c && first.durable == first.db
    ensures var first := Run(cfg, init, rows);
      var whole := Run(cfg.(interrupt := None), init, rows);
      var restart := Config(c, SubspeciesNames(first.durable), None);
      var second := Run(restart, Start(first.durable, first.durable), rows);
      restart.known == cfg.known
      && second.db == whole.db && second.count == whole.count && second.status == whole.status
  {
    var decoded := DecodeAll(rows, cfg.known);
    var plain := cfg.(interrupt := None);
    RunInterrupted(cfg, init, decoded, c);
    RunCount(cfg, init, decoded, c);
    RunKeepsTaxa(cfg, init, decoded, c);
    RunBeforeInterrupt(cfg, init, decoded, c);
    var first := Run(cfg, init, rows);
    Resumes(plain, init, decoded, c, Start(first.durable, first.durable), |rows|);
    assert plain.(startRow := c) == Config(c, SubspeciesNames(first.durable), None);
  }

  /** An unbroken run has stored every key of every row it imported, and
      every such row decoded. */
  lemma {:induction false} RunStoresRows(cfg: Config, init: RunState, rows: seq<Parsed<DecodedRow>>, n: nat)
    requires n <= |rows| && init == Start(init.db, init.durable)
    requires RunUpTo(cfg, init, rows, n).status.Running?
    ensures forall i :: 0 <= i < n && cfg.startRow <= i ==>
      rows[i].Success? && RowKeys(rows[i].value) <= RunUpTo(cfg, init, rows, n).db.records.Keys
    decreases n
  {
    if n > 0 {
      var prev := RunUpTo(cfg, init, rows, n - 1);
      RunStoresRows(cfg, init, rows, n - 1);
      RunCount(cfg, init, rows, n - 1);
      if cfg.startRow <= n - 1 {
        ResolveRowKeys(prev.db, rows[n - 1].value);
      }
    }
  }

  /** Every row from start_row on already stored changes nothing. */
  lemma {:induction false} RerunFixed(cfg: Config, db: Db, rows: seq<Parsed<DecodedRow>>, n: nat)
    requires n <= |rows| && cfg.interrupt.None?
    requires forall i :: 0 <= i < n && cfg.startRow <= i ==> rows[i].Success? && RowKeys(rows[i].value) <= db.records.Keys
    ensures RunUpTo(cfg, Start(db, db), rows, n) == RunState(db, db, n, Running)
    decreases n
  {
    if n > 0 {
      RerunFixed(cfg, db, rows, n - 1);
      if cfg.startRow <= n - 1 {
        ResolveRowPresent(db, rows[n - 1].value);
      }
    }
  }

  /** Importing the same file again over what a finished run committed
      changes nothing: the import is idempotent. */
  lemma RunIdempotent(cfg: Config, init: RunState, rows: seq<Row>)
    requires init == Start(init.db, init.durable) && cfg.interrupt.None?
    requires Run(cfg, init, rows).status.Running?
    ensures var first := Run(cfg, init, rows);
      Run(cfg, Start(first.durable, first.durable), rows) == RunState(first.db, first.db, |rows|, Running)
  {
    var decoded := DecodeAll(rows, cfg.known);
    RunStoresRows(cfg, init, decoded, |rows|);
    RerunFixed(cfg, Run(cfg, init, rows).db, decoded, |rows|);
  }

  // ---------------------------------------------------------------------------
  // The loop, with its caches

  /** The country cache holds, under each country code, that Country's key. */
  predicate CountryCodes(cache: map<string, Key>) {
    forall v :: v in cache ==> cache[v] == CountryKey(v)
  }

  /** The four stubs' caches and the country cache are sound for the session. */
  ghost predicate CachesReady(s: Session, state: LruMemo, county: LruMemo, locality: LruMemo, observer: LruMemo,
                              countries: KeyCache)
    reads s, state, county, locality, observer, countries
  {
    state != county && state != locality && state != observer
    && county != locality && county != observer && locality != observer
    && s.Valid() && state.Valid() && county.Valid() && locality.Valid() && observer.Valid()
    && Coherent(state.entries, s.db) && Coherent(county.entries, s.db)
    && Coherent(locality.entries, s.db) && Coherent(observer.entries, s.db)
    && KeysStored(countries.cache, s.db) && CountryCodes(countries.cache)
  }

  /** session.commit(), which the caches do not notice. */
  method CommitSession(s: Session, state: LruMemo, county: LruMemo, locality: LruMemo, observer: LruMemo,
                       countries: KeyCache)
    requires CachesReady(s, state, county, locality, observer, countries)
    modifies s
    ensures CachesReady(s, state, county, locality, observer, countries)
    ensures s.db == old(s.db) && s.durable == s.db
  {
    s.Commit();
  }

  /** One stub call: the store ends as the uncached call leaves it, and every
      cache stays sound. */
  method StubCall(s: Session, m: LruMemo, a: LruMemo, b: LruMemo, c: LruMemo, countries: KeyCache, r: Request)
    returns (record: Record)
    requires CachesReady(s, m, a, b, c, countries)
    modifies s, m
    ensures CachesReady(s, m, a, b, c, countries)
    ensures s.db == Apply(old(s.db), r) && s.durable == old(s.durable)
    ensures record == GetOrCreate(old(s.db), r.0, r.1).record
  {
    ghost var before := s.db;
    var created;
    record, created := m.Call(s, r);
    CoherentGrows(a.entries, before, s.db);
    CoherentGrows(b.entries, before, s.db);
    CoherentGrows(c.entries, before, s.db);
  }

  /** create_or_cache for the row's Country: a hit in the cache leaves the
      store as get_or_create would, since the Country is stored already. */
  method CountryCall(s: Session, m: LruMemo, a: LruMemo, b: LruMemo, c: LruMemo, countries: KeyCache, d: DecodedRow)
    requires CachesReady(s, m, a, b, c, countries)
    modifies s, countries
    ensures CachesReady(s, m, a, b, c, countries)
    ensures s.db == Apply(old(s.db), CountryRequest(d)) && s.durable == old(s.durable)
  {
    ghost var before := s.db;
    var code := d.place.countryCode;
    if code in countries.cache {
      CachedHitIsUncached(countries.cache, before, code, CountryKey(code), CountryFields(d.place.country));
    }
    var _ := countries.CreateOrCache(s, CountryKey(code), CountryFields(d.place.country), code);
    CoherentGrows(m.entries, before, s.db);
    CoherentGrows(a.entries, before, s.db);
    CoherentGrows(b.entries, before, s.db);
    CoherentGrows(c.entries, before, s.db);
  }

  /** Lines 238-251: the stubs and create_or_cache for one row. Whatever the
      caches hold, the store ends as the uncached lookups leave it, and the
      observer record is the one stored under the row's observer id. */
  method CachedLookups(s: Session, state: LruMemo, county: LruMemo, locality: LruMemo, observer: LruMemo,
                       countries: KeyCache, d: DecodedRow) returns (obs: Record)
    requires CachesReady(s, state, county, locality, observer, countries)
    modifies s, state, county, locality, observer, countries
    ensures CachesReady(s, state, county, locality, observer, countries)
    ensures s.db == Resolved(old(s.db), d, 5) && s.durable == old(s.durable)
    ensures obs.key == ObserverKey(d.observed.observerId)
  {
    ghost var db0 := s.db;
    var p := d.place;
    var _ := StubCall(s, state, county, locality, observer, countries, StateRequest(p.state, p.stateCode));
    assert s.db == Resolved(db0, d, 1);
    var _ := StubCall(s, county, state, locality, observer, countries, CountyRequest(p.county, p.countyCode));
    assert s.db == Resolved(db0, d, 2);
    var _ := StubCall(s, locality, state, county, observer, countries,
                      LocalityRequest(p.localityId, p.localityType, p.localityName));
    assert s.db == Resolved(db0, d, 3);
    CountryCall(s, state, county, locality, observer, countries, d);
    assert s.db == Resolved(db0, d, 4);
    // observer_id is an int, so the `== ''` branch of the source never runs.
    GetOrCreateWellFormed(s.db, ObserverKey(d.observed.observerId), ObserverFields);
    obs := StubCall(s, observer, state, county, locality, countries, ObserverRequest(d.observed.observerId));
  }

  /** Lines 252-291: the Location, the Checklist with the Location's id, and
      the Observation with the keys of the Checklist and the Observer found. */
  method ResolveDependents(s: Session, d: DecodedRow, obs: Record, ghost db0: Db)
    requires s.Valid() && s.db == Resolved(db0, d, 5) && obs.key == ObserverKey(d.observed.observerId)
    modifies s
    ensures s.Valid()
    ensures s.db == ResolveRow(db0, d) && s.durable == old(s.durable) && Grows(old(s.db), s.db)
  {
    DependentStages(db0, d);
    var loc, _ := s.GetOrCreateRecord(LocationRequest(d).0, LocationRequest(d).1);
    assert loc.id == LocationId(s.db, d.observed.coords);
    var check, _ := s.GetOrCreateRecord(ChecklistRequest(d, loc.id).0, ChecklistRequest(d, loc.id).1);
    var o := d.observation;
    var fields := ObservationFields(o.count.numberObserved, o.count.isX, o.ageSex, o.speciesComments,
                                    o.taxon.speciesId, o.taxon.subspeciesId, d.edited.lastEdit, d.edited.hasMedia,
                                    check.key.checklist, obs.key.observerId);
    assert fields == ObservationRequest(d).1;
    var _, _ := s.GetOrCreateRecord(ObservationKey(o.observationId), fields);
  }

  /** The row's last three calls: the Location, the Checklist with the
      Location's id, and the Observation. */
  lemma DependentStages(db: Db, d: DecodedRow)
    ensures var db5 := Resolved(db, d, 5);
      Resolved(db, d, 6) == Apply(db5, LocationRequest(d))
    ensures var db6 := Resolved(db, d, 6);
      Resolved(db, d, 7) == Apply(db6, ChecklistRequest(d, LocationId(db6, d.observed.coords)))
    ensures ResolveRow(db, d) == Apply(Resolved(db, d, 7), ObservationRequest(d))
  {
    assert RowRequest(d, 5, Resolved(db, d, 5)) == LocationRequest(d);
    assert RowRequest(d, 7, Resolved(db, d, 7)) == ObservationRequest(d);
  }

  /** Lines 238-291 for one row, through the caches. */
  method CachedResolveRow(s: Session, state: LruMemo, county: LruMemo, locality: LruMemo, observer: LruMemo,
                          countries: KeyCache, d: DecodedRow)
    requires CachesReady(s, state, county, locality, observer, countries)
    modifies s, state, county, locality, observer, countries
    ensures CachesReady(s, state, county, locality, observer, countries)
    ensures s.db == ResolveRow(old(s.db), d) && s.durable == old(s.durable)
  {
    ghost var db0 := s.db;
    var obs := CachedLookups(s, state, county, locality, observer, countries, d);
    ghost var db5 := s.db;
    ResolveDependents(s, d, obs, db0);
    CoherentGrows(state.entries, db5, s.db);
    CoherentGrows(county.entries, db5, s.db);
    CoherentGrows(locality.entries, db5, s.db);
    CoherentGrows(observer.entries, db5, s.db);
  }

  /** The loop body on row `i`, decoded as `row`: the session ends as Step says. */
  method ProcessRow(s: Session, state: LruMemo, county: LruMemo, locality: LruMemo, observer: LruMemo,
                    countries: KeyCache, cfg: Config, count: nat, i: nat, row: Parsed<DecodedRow>)
    returns (next: nat, status: Status)
    requires CachesReady(s, state, county, locality, observer, countries)
    modifies s, state, county, locality, observer, countries
    ensures CachesReady(s, state, county, locality, observer, countries)
    ensures var after := Step(cfg, RunState(old(s.db), old(s.durable), count, Running), i, row);
      s.db == after.db && s.durable == after.durable && next == after.count && status == after.status
  {
    if cfg.interrupt == Some(i) {
      CommitSession(s, state, county, locality, observer, countries);
      return count, Interrupted;
    }
    if count < cfg.startRow {
      return count + 1, Running;
    }
    if row.Failure? {
      if !row.error.LookupFault? {
        CommitSession(s, state, county, locality, observer, countries);
      }
      return count, Raised(row.error);
    }
    ghost var before := RunState(s.db, s.durable, count, Running);
    next := ImportRow(s, state, county, locality, observer, countries, count, row.value);
    status := Running;
    StepImports(cfg, before, i, row.value, s.db, s.durable);
  }

  /** Step on a decoded row from start_row on is Import. */
  lemma StepImports(cfg: Config, st: RunState, i: nat, d: DecodedRow, db: Db, durable: Db)
    requires st.status.Running? && cfg.interrupt != Some(i) && cfg.startRow <= st.count
    requires db == ResolveRow(st.db, d)
    requires durable == if BatchEnd(st.count + 1) then db else st.durable
    ensures Step(cfg, st, i, Success(d)) == RunState(db, durable, st.count + 1, Running)
  {
  }

  /** Lines 238-297: a decoded row resolved through the caches, counted, and
      committed on a batch multiple. */
  method ImportRow(s: Session, state: LruMemo, county: LruMemo, locality: LruMemo, observer: LruMemo,
                   countries: KeyCache, count: nat, d: DecodedRow) returns (next: nat)
    requires CachesReady(s, state, county, locality, observer, countries)
    modifies s, state, county, locality, observer, countries
    ensures CachesReady(s, state, county, locality, observer, countries)
    ensures s.db == ResolveRow(old(s.db), d) && next == count + 1
    ensures s.durable == if BatchEnd(next) then s.db else old(s.durable)
  {
    CachedResolveRow(s, state, county, locality, observer, countries, d);
    next := count + 1;
    if BatchEnd(next) {
      CommitSession(s, state, county, locality, observer, countries);
    }
  }

  /** Lines 150-313: the loop over the observation file, with fresh caches,
      and the closing commit. The session ends as the run over the same rows
      ends. */
  method ParseDump(s: Session, rows: seq<Row>, cfg: Config) returns (count: nat, status: Status)
    requires s.Valid()
    modifies s
    ensures s.Valid()
    ensures var r := Run(cfg, Start(old(s.db), old(s.durable)), rows);
      s.db == r.db && s.durable == r.durable && count == r.count && status == r.status
  {
    var state := new LruMemo(StateCacheSize);
    var county := new LruMemo(CountyCacheSize);
    var locality := new LruMemo(LocalityCacheSize);
    var observer := new LruMemo(ObserverCacheSize);
    var countries := new KeyCache();
    ghost var init := Start(s.db, s.durable);
    count, status := ParseRows(s, state, county, locality, observer, countries, rows, cfg);
    ghost var run := RunUpTo(cfg, init, DecodeAll(rows, cfg.known), |rows|);
    if !status.Raised? {
      CommitSession(s, state, county, locality, observer, countries);
    }
    RunFinishes(cfg, init, rows, run);
  }

  /** Lines 150-312: the loop, which stops at the first row that raises or
      is interrupted. */
  method ParseRows(s: Session, state: LruMemo, county: LruMemo, locality: LruMemo, observer: LruMemo,
                   countries: KeyCache, rows: seq<Row>, cfg: Config) returns (count: nat, status: Status)
    requires CachesReady(s, state, county, locality, observer, countries)
    modifies s, state, county, locality, observer, countries
    ensures CachesReady(s, state, county, locality, observer, countries)
    ensures var r := RunUpTo(cfg, Start(old(s.db), old(s.durable)), DecodeAll(rows, cfg.known), |rows|);
      s.db == r.db && s.durable == r.durable && count == r.count && status == r.status
  {
    ghost var init := Start(s.db, s.durable);
    ghost var decoded := DecodeAll(rows, cfg.known);
    ghost var run := init;
    count, status := 0, Running;
    var i := 0;
    while i < |rows| && status.Running?
      invariant 0 <= i <= |rows|
      invariant CachesReady(s, state, county, locality, observer, countries)
      invariant run == RunUpTo(cfg, init, decoded, i)
      invariant s.db == run.db && s.durable == run.durable && count == run.count && status == run.status
      invariant !status.Running? ==> run == RunUpTo(cfg, init, decoded, |rows|)
      decreases |rows| - i
    {
      count, status := ProcessRow(s, state, county, locality, observer, countries, cfg, count, i,
                                  DecodeRow(rows[i], cfg.known));
      run := Step(cfg, run, i, decoded[i]);
      if !status.Running? {
        RunStopped(cfg, init, decoded, i + 1, |rows|);
      }
      i := i + 1;
    }
  }

  /** The run over the file is the loop over its decoded rows, then the closing commit. */
  lemma RunFinishes(cfg: Config, init: RunState, rows: seq<Row>, run: RunState)
    requires run == RunUpTo(cfg, init, DecodeAll(rows, cfg.known), |rows|)
    ensures Run(cfg, init, rows) == Finish(run)
  {
  }
  // ---------------------------------------------------------------------------
  // The whole import

  /** parse_ebird_dump: the optional taxonomy load, whose exception ends the
      call before the file is opened; then the SubSpecies names the store
      holds, read once; then the loop over the file's rows. */
  function EbirdDump(db: Db, durable: Db, rows: seq<Row>, startRow: int,
                     taxa: Option<seq<TaxonRow>>, interrupt: Option<nat>): RunState
  {
    var l := if taxa.Some? then TaxaToDb(db, durable, taxa.value) else Loaded(db, durable, None);
    if l.fault.Some? then RunState(l.db, l.durable, 0, Raised(l.fault.value))
    else Run(Config(startRow, SubspeciesNames(l.db), interrupt), Start(l.db, l.durable), rows)
  }

  /** After a taxonomy load that raised nothing, every entry of its second
      table is a name the rows are remapped against, and it is still stored
      when the import ends, however the loop ended. */
  lemma EbirdDumpKnowsTaxonomy(db: Db, durable: Db, rows: seq<Row>, startRow: int,
                               t: seq<TaxonRow>, interrupt: Option<nat>, k: real)
    requires TaxonomyOf(t).Success? && TaxaToDb(db, durable, t).fault.None?
    requires k in TaxonomyOf(t).value.subspecies.values
    ensures var name := TaxonomyOf(t).value.subspecies.values[k].scientificName;
      name in SubspeciesNames(TaxaToDb(db, durable, t).db)
      && name in SubspeciesNames(EbirdDump(db, durable, rows, startRow, Some(t), interrupt).db)
  {
    var l := TaxaToDb(db, durable, t);
    LoadedNamesKnown(db, durable, t, k);
    var cfg := Config(startRow, SubspeciesNames(l.db), interrupt);
    var decoded := DecodeAll(rows, cfg.known);
    assert EbirdDump(db, durable, rows, startRow, Some(t), interrupt).db
        == RunUpTo(cfg, Start(l.db, l.durable), decoded, |decoded|).db;
    RunKeepsTaxa(cfg, Start(l.db, l.durable), decoded, |decoded|);
  }

  /** The taxonomy load stores, by name, every entry of the second table. */
  lemma LoadedNamesKnown(db: Db, durable: Db, t: seq<TaxonRow>, k: real)
    requires TaxonomyOf(t).Success? && TaxaToDb(db, durable, t).fault.None?
    requires k in TaxonomyOf(t).value.subspecies.values
    ensures TaxonomyOf(t).value.subspecies.values[k].scientificName in SubspeciesNames(TaxaToDb(db, durable, t).db)
  {
    var st := TaxonomyOf(t).value;
    TaxonomyOrdered(DecimalOrder, t);
    LoadOutcome(db, Taxonomy(st.species, st.subspecies));
    var i :| 0 <= i < |st.subspecies.keys| && st.subspecies.keys[i] == k;
    assert SubSpeciesKey(st.subspecies.values[k].scientificName) in TaxaToDb(db, durable, t).db.records;
  }

  /** parse_ebird_dump against the session. */
  method ParseEbirdDump(s: Session, rows: seq<Row>, startRow: int, taxa: Option<seq<TaxonRow>>,
                        interrupt: Option<nat>) returns (count: nat, status: Status)
    requires s.Valid()
    modifies s
    ensures s.Valid()
    ensures var r := EbirdDump(old(s.db), old(s.durable), rows, startRow, taxa, interrupt);
      s.db == r.db && s.durable == r.durable && count == r.count && status == r.status
  {
    if taxa.Some? {
      var fault := ParsedTaxaCsvToDb(s, taxa.value);
      if fault.Some? {
        return 0, Raised(fault.value);
      }
    }
    var known := SubspeciesNames(s.db);
    count, status := ParseDump(s, rows, Config(startRow, known, interrupt));
  }
}
