/** The eBird taxonomy CSV: the fold that splits its rows into species and
    everything else (parse_ebird_taxonomy), and the load of both tables into
    the store (parsed_taxa_csv_to_db). */
module Taxonomy {
  import opened Wrappers
  import opened FieldCodec
  import opened Collections
  import opened Store

  /** One row of the taxonomy CSV, already split into the columns read. */
  datatype TaxonRow = TaxonRow(
    commonName: string,     // PRIMARY_COM_NAME
    scientificName: string, // SCI_NAME
    taxonOrder: string,     // TAXON_ORDER
    category: string,       // CATEGORY
    reportAs: string,       // REPORT_AS
    speciesCode: string)    // SPECIES_CODE

  datatype SpeciesEntry = SpeciesEntry(commonName: string, scientificName: string, speciesCode: string)

  datatype SubspeciesEntry = SubspeciesEntry(
    commonName: string, scientificName: string, category: string, parent: Option<string>,
    subspeciesCode: string)

  /** The three dictionaries of the loop. Taxonomic orders are Decimals, whose
      dictionary keys compare by value, so they are keyed by that value. */
  datatype TaxState = TaxState(
    species: OrderedMap<real, SpeciesEntry>,
    subspecies: OrderedMap<real, SubspeciesEntry>,
    codes: map<string, (string, string)>)

  /** What parse_ebird_taxonomy returns. */
  datatype Taxonomy = Taxonomy(species: OrderedMap<real, SpeciesEntry>, subspecies: OrderedMap<real, SubspeciesEntry>)

  const Start: TaxState := TaxState(OrderedMap([], map[]), OrderedMap([], map[]), map[])

  /** The parent's scientific name: none for an empty code, otherwise the one
      recorded for the code, which must have been seen. */
  function ParentName(codes: map<string, (string, string)>, reportAs: string): (r: Parsed<Option<string>>)
    ensures r.Failure? <==> reportAs != "" && reportAs !in codes
    ensures r.Failure? ==> r.error == LookupFault(reportAs)
    ensures r == Success(None) <==> reportAs == ""
  {
    if reportAs == "" then Success(None)
    else if reportAs in codes then Success(Some(codes[reportAs].0))
    else Failure(LookupFault(reportAs))
  }

  /** How a TAXON_ORDER cell is read: the value of Decimal(cell), or nothing
      when the cell is not a decimal. */
  type OrderParser = string -> Option<real>

  function DecimalOrder(s: string): Option<real> {
    match ParseDecimal(s)
    case Success(d) => Some(DecimalValue(d))
    case Failure(_) => None
  }

  /** One iteration of the loop. The row's own code is recorded before its
      parent is looked up, so a row may name itself as its parent. */
  function TaxonStep(order: OrderParser, st: TaxState, row: TaxonRow): Parsed<TaxState> {
    var codes := st.codes[row.speciesCode := (row.scientificName, row.taxonOrder)];
    if order(row.taxonOrder).None? then Failure(ParseFault(row.taxonOrder))
    else
    var k := order(row.taxonOrder).value;
    var parent :- ParentName(codes, row.reportAs);
    if row.category == "species" then
      Success(TaxState(Put(st.species, k, SpeciesEntry(row.commonName, row.scientificName, row.speciesCode)),
                       st.subspecies, codes))
    else
      Success(TaxState(st.species,
                       Put(st.subspecies, k, SubspeciesEntry(row.commonName, row.scientificName, row.category,
                                                             parent, row.speciesCode)),
                       codes))
  }

  /** The loop over all rows, top to bottom, for any reading of the order
      column; the first fault ends it. */
  function TaxonomyWith(order: OrderParser, rows: seq<TaxonRow>): Parsed<TaxState>
    decreases |rows|
  {
    if |rows| == 0 then Success(Start)
    else
      var st :- TaxonomyWith(order, rows[..|rows| - 1]);
      TaxonStep(order, st, rows[|rows| - 1])
  }

  /** The loop of parse_ebird_taxonomy, which reads orders with Decimal. */
  function TaxonomyOf(rows: seq<TaxonRow>): Parsed<TaxState> {
    TaxonomyWith(DecimalOrder, rows)
  }

  function Tables(r: Parsed<TaxState>): Parsed<Taxonomy> {
    match r
    case Success(st) => Success(Taxonomy(st.species, st.subspecies))
    case Failure(e) => Failure(e)
  }

  // ---------------------------------------------------------------------------
  // What the fold computes, defined row by row

  /** The taxonomic order of a row, when it parses. */
  function OrderOf(order: OrderParser, row: TaxonRow): Option<real> {
    order(row.taxonOrder)
  }

  /** The scientific name of the last of `rows` carrying `code`. */
  function LatestName(rows: seq<TaxonRow>, code: string): Option<string>
    decreases |rows|
  {
    if |rows| == 0 then None
    else if rows[|rows| - 1].speciesCode == code then Some(rows[|rows| - 1].scientificName)
    else LatestName(rows[..|rows| - 1], code)
  }

  /** Row i cannot be read: its order is not a decimal, or it names a parent
      code that no row up to and including it carries. */
  predicate RowFaults(order: OrderParser, rows: seq<TaxonRow>, i: nat)
    requires i < |rows|
  {
    OrderOf(order, rows[i]).None? || (rows[i].reportAs != "" && LatestName(rows[..i + 1], rows[i].reportAs).None?)
  }

  /** The fault row i raises. */
  function RowFault(order: OrderParser, row: TaxonRow): Fault {
    if OrderOf(order, row).None? then ParseFault(row.taxonOrder) else LookupFault(row.reportAs)
  }

  /** The parent name row i is stored with. */
  function ParentOf(rows: seq<TaxonRow>, i: nat): Option<string>
    requires i < |rows|
  {
    if rows[i].reportAs == "" then None else LatestName(rows[..i + 1], rows[i].reportAs)
  }

  /** Row i is the last species row with order k. */
  predicate LastSpecies(order: OrderParser, rows: seq<TaxonRow>, i: nat, k: real) {
    i < |rows| && rows[i].category == "species" && OrderOf(order, rows[i]) == Some(k)
    && forall j :: i < j < |rows| && rows[j].category == "species" ==> OrderOf(order, rows[j]) != Some(k)
  }

  /** Row i is the last non-species row with order k. */
  predicate LastSubspecies(order: OrderParser, rows: seq<TaxonRow>, i: nat, k: real) {
    i < |rows| && rows[i].category != "species" && OrderOf(order, rows[i]) == Some(k)
    && forall j :: i < j < |rows| && rows[j].category != "species" ==> OrderOf(order, rows[j]) != Some(k)
  }

  function SubspeciesEntryOf(order: OrderParser, rows: seq<TaxonRow>, i: nat): SubspeciesEntry
    requires i < |rows|
  {
    SubspeciesEntry(rows[i].commonName, rows[i].scientificName, rows[i].category, ParentOf(rows, i),
                    rows[i].speciesCode)
  }

  // ---------------------------------------------------------------------------
  // Properties of the fold

  lemma PrefixOfPrefix(rows: seq<TaxonRow>, i: nat)
    requires i < |rows|
    ensures rows[..|rows| - 1][..i] == rows[..i]
    ensures i < |rows| - 1 ==> rows[..|rows| - 1][..i + 1] == rows[..i + 1]
  {
  }

  /** What one step does, spelled out. */
  lemma StepFacts(order: OrderParser, st: TaxState, row: TaxonRow)
    ensures var codes := st.codes[row.speciesCode := (row.scientificName, row.taxonOrder)];
      TaxonStep(order, st, row).Success? <==> OrderOf(order, row).Some? && (row.reportAs == "" || row.reportAs in codes)
    ensures TaxonStep(order, st, row).Failure? ==> TaxonStep(order, st, row).error == RowFault(order, row)
    ensures TaxonStep(order, st, row).Success? ==>
      TaxonStep(order, st, row).value.codes == st.codes[row.speciesCode := (row.scientificName, row.taxonOrder)]
  {
  }

  /** The species table after one step. */
  lemma StepSpecies(order: OrderParser, st: TaxState, row: TaxonRow)
    requires TaxonStep(order, st, row).Success?
    ensures TaxonStep(order, st, row).value.species ==
      if row.category == "species"
      then Put(st.species, OrderOf(order, row).value, SpeciesEntry(row.commonName, row.scientificName, row.speciesCode))
      else st.species
  {
  }

  /** The table of other categories after one step. */
  lemma StepSubspecies(order: OrderParser, st: TaxState, row: TaxonRow)
    requires TaxonStep(order, st, row).Success?
    ensures var next := TaxonStep(order, st, row).value;
      next.subspecies ==
      if row.category == "species" then st.subspecies
      else Put(st.subspecies, OrderOf(order, row).value, SubspeciesEntry(row.commonName, row.scientificName,
                 row.category, ParentName(next.codes, row.reportAs).value, row.speciesCode))
  {
  }

  /** The fold over a non-empty list is its last step after the fold of the rest. */
  lemma Unfold(order: OrderParser, rows: seq<TaxonRow>)
    requires |rows| > 0
    ensures TaxonomyWith(order, rows) ==
      (if TaxonomyWith(order, rows[..|rows| - 1]).Failure? then TaxonomyWith(order, rows[..|rows| - 1])
       else TaxonStep(order, TaxonomyWith(order, rows[..|rows| - 1]).value, rows[|rows| - 1]))
  {
  }

  /** The code table holds the latest scientific name of every code seen. */
  lemma {:induction false} CodeIsLatest(order: OrderParser, rows: seq<TaxonRow>, c: string)
    requires TaxonomyWith(order, rows).Success?
    ensures c in TaxonomyWith(order, rows).value.codes <==> LatestName(rows, c).Some?
    ensures c in TaxonomyWith(order, rows).value.codes ==> TaxonomyWith(order, rows).value.codes[c].0 == LatestName(rows, c).value
    decreases |rows|
  {
    if |rows| > 0 {
      var n := |rows| - 1;
      Unfold(order, rows);
      StepFacts(order, TaxonomyWith(order, rows[..n]).value, rows[n]);
      CodeIsLatest(order, rows[..n], c);
    }
  }

  /** Row i of a longer list faults exactly when it faults in the prefix. */
  lemma RowFaultsPrefix(order: OrderParser, rows: seq<TaxonRow>, i: nat)
    requires i < |rows| - 1
    ensures RowFaults(order, rows, i) == RowFaults(order, rows[..|rows| - 1], i)
    ensures ParentOf(rows, i) == ParentOf(rows[..|rows| - 1], i)
  {
    PrefixOfPrefix(rows, i);
  }

  /** The last row faults exactly when its step fails after a good prefix;
      when it does not, its parent is the latest name recorded for its code. */
  lemma LastRowFaults(order: OrderParser, rows: seq<TaxonRow>)
    requires |rows| > 0 && TaxonomyWith(order, rows[..|rows| - 1]).Success?
    ensures RowFaults(order, rows, |rows| - 1) <==> TaxonomyWith(order, rows).Failure?
    ensures TaxonomyWith(order, rows).Failure? ==> TaxonomyWith(order, rows).error == RowFault(order, rows[|rows| - 1])
    ensures TaxonomyWith(order, rows).Success? ==>
      ParentName(TaxonomyWith(order, rows).value.codes, rows[|rows| - 1].reportAs).value == ParentOf(rows, |rows| - 1)
  {
    var n := |rows| - 1;
    var pre := rows[..n];
    var row := rows[n];
    assert rows[..n + 1] == rows;
    Unfold(order, rows);
    StepFacts(order, TaxonomyWith(order, pre).value, row);
    if row.reportAs != "" {
      CodeIsLatest(order, pre, row.reportAs);
    }
  }

  /** A fold that succeeds read every row without a fault. */
  lemma {:induction false} SucceedsWithoutFaults(order: OrderParser, rows: seq<TaxonRow>, i: nat)
    requires TaxonomyWith(order, rows).Success? && i < |rows|
    ensures !RowFaults(order, rows, i)
    decreases |rows|
  {
    var n := |rows| - 1;
    Unfold(order, rows);
    if i < n {
      SucceedsWithoutFaults(order, rows[..n], i);
      RowFaultsPrefix(order, rows, i);
    } else {
      LastRowFaults(order, rows);
    }
  }

  /** A row that faults makes the fold fail. */
  lemma {:induction false} FaultFails(order: OrderParser, rows: seq<TaxonRow>, i: nat)
    requires i < |rows| && RowFaults(order, rows, i)
    ensures TaxonomyWith(order, rows).Failure?
  {
    if TaxonomyWith(order, rows).Success? {
      SucceedsWithoutFaults(order, rows, i);
    }
  }

  /** A failing fold fails with the fault of the first faulting row. */
  lemma {:induction false} TaxonomyFirstFault(order: OrderParser, rows: seq<TaxonRow>)
    requires TaxonomyWith(order, rows).Failure?
    ensures exists i :: (0 <= i < |rows| && RowFaults(order, rows, i) && (forall j :: 0 <= j < i ==> !RowFaults(order, rows, j))
                         && TaxonomyWith(order, rows).error == RowFault(order, rows[i]))
    decreases |rows|
  {
    var n := |rows| - 1;
    var pre := rows[..n];
    Unfold(order, rows);
    if TaxonomyWith(order, pre).Success? {
      LastRowFaults(order, rows);
      forall j | 0 <= j < n ensures !RowFaults(order, rows, j) {
        SucceedsWithoutFaults(order, pre, j);
        RowFaultsPrefix(order, rows, j);
      }
      StepFacts(order, TaxonomyWith(order, pre).value, rows[n]);
    } else {
      TaxonomyFirstFault(order, pre);
      var i :| 0 <= i < n && RowFaults(order, pre, i) && (forall j :: 0 <= j < i ==> !RowFaults(order, pre, j))
        && TaxonomyWith(order, pre).error == RowFault(order, pre[i]);
      RowFaultsPrefix(order, rows, i);
      forall j | 0 <= j < i ensures !RowFaults(order, rows, j) {
        RowFaultsPrefix(order, rows, j);
      }
      assert rows[i] == pre[i];
    }
  }

  /** Once a prefix has failed, the whole fold fails the same way. */
  lemma {:induction false} FailurePersists(order: OrderParser, rows: seq<TaxonRow>, n: nat)
    requires n <= |rows| && TaxonomyWith(order, rows[..n]).Failure?
    ensures TaxonomyWith(order, rows) == TaxonomyWith(order, rows[..n])
    decreases |rows| - n
  {
    if n < |rows| {
      assert rows[..n + 1][..n] == rows[..n];
      FailurePersists(order, rows, n + 1);
    } else {
      assert rows[..n] == rows;
    }
  }

  /** A species row with order k; order and category do not depend on the prefix. */
  predicate SpeciesAt(order: OrderParser, rows: seq<TaxonRow>, i: int, k: real) {
    0 <= i < |rows| && rows[i].category == "species" && OrderOf(order, rows[i]) == Some(k)
  }

  predicate SubspeciesAt(order: OrderParser, rows: seq<TaxonRow>, i: int, k: real) {
    0 <= i < |rows| && rows[i].category != "species" && OrderOf(order, rows[i]) == Some(k)
  }

  /** The species table has an entry for order k exactly when some species
      row has order k. */
  lemma {:induction false} SpeciesKeys(order: OrderParser, rows: seq<TaxonRow>, k: real)
    requires TaxonomyWith(order, rows).Success?
    ensures k in TaxonomyWith(order, rows).value.species.values <==> exists i :: SpeciesAt(order, rows, i, k)
    decreases |rows|
  {
    if |rows| > 0 {
      var n := |rows| - 1;
      var pre := rows[..n];
      Unfold(order, rows);
      StepSpecies(order, TaxonomyWith(order, pre).value, rows[n]);
      SpeciesKeys(order, pre, k);
      var st := TaxonomyWith(order, pre).value;
      var next := TaxonomyWith(order, rows).value;
      if rows[n].category == "species" && OrderOf(order, rows[n]) == Some(k) {
        assert SpeciesAt(order, rows, n, k);
        assert k in next.species.values;
      } else {
        assert k in next.species.values <==> k in st.species.values;
        if exists i :: SpeciesAt(order, pre, i, k) {
          var i :| SpeciesAt(order, pre, i, k);
          assert SpeciesAt(order, rows, i, k);
        }
        if exists i :: SpeciesAt(order, rows, i, k) {
          var i :| SpeciesAt(order, rows, i, k);
          assert SpeciesAt(order, pre, i, k);
        }
      }
    }
  }

  /** The entry for order k is that of the last species row with order k. */
  lemma {:induction false} SpeciesLastWins(order: OrderParser, rows: seq<TaxonRow>, i: nat, k: real)
    requires TaxonomyWith(order, rows).Success? && LastSpecies(order, rows, i, k)
    ensures k in TaxonomyWith(order, rows).value.species.values
    ensures TaxonomyWith(order, rows).value.species.values[k] ==
      SpeciesEntry(rows[i].commonName, rows[i].scientificName, rows[i].speciesCode)
    decreases |rows|
  {
    var n := |rows| - 1;
    var pre := rows[..n];
    Unfold(order, rows);
    StepSpecies(order, TaxonomyWith(order, pre).value, rows[n]);
    if i < n {
      assert LastSpecies(order, pre, i, k);
      SpeciesLastWins(order, pre, i, k);
    }
  }

  /** The table of other categories has an entry for order k exactly when
      some non-species row has order k. */
  lemma {:induction false} SubspeciesKeys(order: OrderParser, rows: seq<TaxonRow>, k: real)
    requires TaxonomyWith(order, rows).Success?
    ensures k in TaxonomyWith(order, rows).value.subspecies.values <==> exists i :: SubspeciesAt(order, rows, i, k)
    decreases |rows|
  {
    if |rows| > 0 {
      var n := |rows| - 1;
      var pre := rows[..n];
      Unfold(order, rows);
      StepSubspecies(order, TaxonomyWith(order, pre).value, rows[n]);
      SubspeciesKeys(order, pre, k);
      var st := TaxonomyWith(order, pre).value;
      var next := TaxonomyWith(order, rows).value;
      if rows[n].category != "species" && OrderOf(order, rows[n]) == Some(k) {
        assert SubspeciesAt(order, rows, n, k);
        assert k in next.subspecies.values;
      } else {
        assert k in next.subspecies.values <==> k in st.subspecies.values;
        if exists i :: SubspeciesAt(order, pre, i, k) {
          var i :| SubspeciesAt(order, pre, i, k);
          assert SubspeciesAt(order, rows, i, k);
        }
        if exists i :: SubspeciesAt(order, rows, i, k) {
          var i :| SubspeciesAt(order, rows, i, k);
          assert SubspeciesAt(order, pre, i, k);
        }
      }
    }
  }

  /** The entry for order k is that of the last non-species row with order
      k, with the parent's name as it stood when that row was read. */
  lemma {:induction false} SubspeciesLastWins(order: OrderParser, rows: seq<TaxonRow>, i: nat, k: real)
    requires TaxonomyWith(order, rows).Success? && LastSubspecies(order, rows, i, k)
    ensures k in TaxonomyWith(order, rows).value.subspecies.values
    ensures TaxonomyWith(order, rows).value.subspecies.values[k] == SubspeciesEntryOf(order, rows, i)
    decreases |rows|
  {
    var n := |rows| - 1;
    var pre := rows[..n];
    Unfold(order, rows);
    if i < n {
      assert LastSubspecies(order, pre, i, k);
      SubspeciesLastWins(order, pre, i, k);
      RowFaultsPrefix(order, rows, i);
      SubspeciesKept(order, TaxonomyWith(order, pre).value, rows[n], k);
      assert pre[i] == rows[i];
    } else {
      StepSubspecies(order, TaxonomyWith(order, pre).value, rows[n]);
      LastRowFaults(order, rows);
    }
  }

  /** A row that is a species, or has another order, leaves the entry for order k as it was. */
  lemma SubspeciesKept(order: OrderParser, st: TaxState, row: TaxonRow, k: real)
    requires TaxonStep(order, st, row).Success? && k in st.subspecies.values
    requires row.category == "species" || OrderOf(order, row) != Some(k)
    ensures k in TaxonStep(order, st, row).value.subspecies.values
    ensures TaxonStep(order, st, row).value.subspecies.values[k] == st.subspecies.values[k]
  {
    StepSubspecies(order, st, row);
  }

  /** Both tables keep their insertion order in step with their entries. */
  lemma {:induction false} TaxonomyOrdered(order: OrderParser, rows: seq<TaxonRow>)
    requires TaxonomyWith(order, rows).Success?
    ensures OrderedValid(TaxonomyWith(order, rows).value.species)
    ensures OrderedValid(TaxonomyWith(order, rows).value.subspecies)
    decreases |rows|
  {
    if |rows| > 0 {
      var n := |rows| - 1;
      var pre := rows[..n];
      Unfold(order, rows);
      TaxonomyOrdered(order, pre);
      StepSpecies(order, TaxonomyWith(order, pre).value, rows[n]);
      StepSubspecies(order, TaxonomyWith(order, pre).value, rows[n]);
      var st := TaxonomyWith(order, pre).value;
      var k := OrderOf(order, rows[n]).value;
      if rows[n].category == "species" {
        PutValid(st.species, k, SpeciesEntry(rows[n].commonName, rows[n].scientificName, rows[n].speciesCode));
      } else {
        PutValid(st.subspecies, k, TaxonomyWith(order, rows).value.subspecies.values[k]);
      }
    }
  }

  /** Row i has order k and is a species row when `isSpecies` holds, a row of
      another category otherwise. */
  predicate KindAt(order: OrderParser, rows: seq<TaxonRow>, i: int, k: real, isSpecies: bool) {
    if isSpecies then SpeciesAt(order, rows, i, k) else SubspeciesAt(order, rows, i, k)
  }

  /** Row i is the first row of that kind with order k. */
  predicate FirstKindAt(order: OrderParser, rows: seq<TaxonRow>, i: int, k: real, isSpecies: bool) {
    KindAt(order, rows, i, k, isSpecies) && forall j :: 0 <= j < i ==> !KindAt(order, rows, j, k, isSpecies)
  }

  /** The key order of the species table, or of the other one. */
  function TableKeys(st: TaxState, isSpecies: bool): seq<real> {
    if isSpecies then st.species.keys else st.subspecies.keys
  }

  /** The first row with a key of the prefix's table lies in the prefix. */
  lemma FirstKindInPrefix(order: OrderParser, rows: seq<TaxonRow>, i: int, k: real, isSpecies: bool)
    requires |rows| > 0 && TaxonomyWith(order, rows[..|rows| - 1]).Success?
    requires k in TableKeys(TaxonomyWith(order, rows[..|rows| - 1]).value, isSpecies)
    requires FirstKindAt(order, rows, i, k, isSpecies)
    ensures i < |rows| - 1 && FirstKindAt(order, rows[..|rows| - 1], i, k, isSpecies)
  {
    var pre := rows[..|rows| - 1];
    TaxonomyOrdered(order, pre);
    if isSpecies {
      SpeciesKeys(order, pre, k);
      var i' :| SpeciesAt(order, pre, i', k);
      assert KindAt(order, rows, i', k, isSpecies);
    } else {
      SubspeciesKeys(order, pre, k);
      var i' :| SubspeciesAt(order, pre, i', k);
      assert KindAt(order, rows, i', k, isSpecies);
    }
    forall j | 0 <= j < i ensures !KindAt(order, pre, j, k, isSpecies) {
      assert !KindAt(order, rows, j, k, isSpecies);
    }
    assert pre[i] == rows[i];
  }

  /** A step either keeps a table's key order or appends the row's order,
      which no earlier row of that kind had. */
  lemma StepKeys(order: OrderParser, rows: seq<TaxonRow>, isSpecies: bool)
    requires |rows| > 0 && TaxonomyWith(order, rows).Success?
    ensures var n := |rows| - 1;
      var before := TableKeys(TaxonomyWith(order, rows[..n]).value, isSpecies);
      var after := TableKeys(TaxonomyWith(order, rows).value, isSpecies);
      after == before
      || (exists k :: after == before + [k] && FirstKindAt(order, rows, n, k, isSpecies))
  {
    var n := |rows| - 1;
    var pre := rows[..n];
    Unfold(order, rows);
    var st := TaxonomyWith(order, pre).value;
    StepSpecies(order, st, rows[n]);
    StepSubspecies(order, st, rows[n]);
    TaxonomyOrdered(order, pre);
    var k := OrderOf(order, rows[n]).value;
    if KindAt(order, rows, n, k, isSpecies) && k !in TableKeys(st, isSpecies) {
      forall j | 0 <= j < n ensures !KindAt(order, rows, j, k, isSpecies) {
        if KindAt(order, rows, j, k, isSpecies) {
          assert KindAt(order, pre, j, k, isSpecies);
          if isSpecies { SpeciesKeys(order, pre, k); } else { SubspeciesKeys(order, pre, k); }
        }
      }
    }
  }

  /** Each table lists its orders in the order of their first rows: of two
      keys, the earlier one first appeared on an earlier row. With
      SpeciesKeys, SubspeciesKeys and TaxonomyOrdered this fixes the order
      in which the load's loops walk the tables. */
  lemma {:induction false} TableKeysFirstSeen(order: OrderParser, rows: seq<TaxonRow>, isSpecies: bool,
                                              a: nat, b: nat, i: int, j: int)
    requires TaxonomyWith(order, rows).Success?
    requires a < b < |TableKeys(TaxonomyWith(order, rows).value, isSpecies)|
    requires FirstKindAt(order, rows, i, TableKeys(TaxonomyWith(order, rows).value, isSpecies)[a], isSpecies)
    requires FirstKindAt(order, rows, j, TableKeys(TaxonomyWith(order, rows).value, isSpecies)[b], isSpecies)
    ensures i < j
    decreases |rows|
  {
    var n := |rows| - 1;
    var pre := rows[..n];
    Unfold(order, rows);
    var before := TableKeys(TaxonomyWith(order, pre).value, isSpecies);
    var after := TableKeys(TaxonomyWith(order, rows).value, isSpecies);
    StepKeys(order, rows, isSpecies);
    FirstKindInPrefix(order, rows, i, after[a], isSpecies);
    if b < |before| {
      FirstKindInPrefix(order, rows, j, after[b], isSpecies);
      TableKeysFirstSeen(order, pre, isSpecies, a, b, i, j);
    } else {
      var k :| after == before + [k] && FirstKindAt(order, rows, n, k, isSpecies);
      assert after[b] == k;
      assert j == n;
    }
  }

  // ---------------------------------------------------------------------------
  // parse_ebird_taxonomy

  /** The loop itself, over local dictionaries. */
  method ParseTaxonomy(rows: seq<TaxonRow>) returns (r: Parsed<Taxonomy>)
    ensures r == Tables(TaxonomyOf(rows))
  {
    var species: OrderedMap<real, SpeciesEntry> := OrderedMap([], map[]);
    var subspecies: OrderedMap<real, SubspeciesEntry> := OrderedMap([], map[]);
    var codes: map<string, (string, string)> := map[];
    for i := 0 to |rows|
      invariant TaxonomyOf(rows[..i]) == Success(TaxState(species, subspecies, codes))
    {
      assert rows[..i + 1][..i] == rows[..i];
      var row := rows[i];
      var st := TaxState(species, subspecies, codes);
      codes := codes[row.speciesCode := (row.scientificName, row.taxonOrder)];
      var taxa := ParseDecimal(row.taxonOrder);
      if taxa.Failure? {
        FailurePersists(DecimalOrder, rows, i + 1);
        return Failure(taxa.error);
      }
      var parent: Option<string> := None;
      if row.reportAs != "" {
        if row.reportAs !in codes {
          FailurePersists(DecimalOrder, rows, i + 1);
          return Failure(LookupFault(row.reportAs));
        }
        parent := Some(codes[row.reportAs].0);
      }
      var k := DecimalValue(taxa.value);
      if row.category == "species" {
        species := Put(species, k, SpeciesEntry(row.commonName, row.scientificName, row.speciesCode));
      } else {
        subspecies := Put(subspecies, k, SubspeciesEntry(row.commonName, row.scientificName, row.category,
                                                         parent, row.speciesCode));
      }
      assert TaxonStep(DecimalOrder, st, row) == Success(TaxState(species, subspecies, codes));
    }
    assert rows[..|rows|] == rows;
    return Success(Taxonomy(species, subspecies));
  }

  // ---------------------------------------------------------------------------
  // parsed_taxa_csv_to_db

  /** The get_or_create call for one species entry, keyed by scientific name. */
  function SpeciesRequest(k: real, v: SpeciesEntry): (r: Request)
    ensures r.0 == SpeciesKey(v.scientificName) && r.1.SpeciesFields? && r.1.taxonomicOrder == k
  {
    (SpeciesKey(v.scientificName), SpeciesFields(v.commonName, k, v.speciesCode))
  }

  /** The species calls, in the dictionary's insertion order. */
  function SpeciesRequests(m: OrderedMap<real, SpeciesEntry>): (reqs: seq<Request>)
    requires OrderedValid(m)
    ensures |reqs| == |m.keys|
    ensures forall i :: 0 <= i < |m.keys| ==> reqs[i] == SpeciesRequest(m.keys[i], m.values[m.keys[i]])
  {
    seq(|m.keys|, i requires 0 <= i < |m.keys| => SpeciesRequest(m.keys[i], m.values[m.keys[i]]))
  }

  /** The get_or_create call for one entry of the other table; its category
      must be one of the seven the category table knows. */
  function SubspeciesRequest(k: real, v: SubspeciesEntry): (r: Parsed<Request>)
    ensures r.Failure? <==> CategoryCode(v.category).Failure?
    ensures r.Failure? ==> r.error == LookupFault(v.category)
    ensures r.Success? ==> r.value.0 == SubSpeciesKey(v.scientificName)
  {
    var category :- CategoryCode(v.category);
    Success((SubSpeciesKey(v.scientificName),
             SubSpeciesFields(v.commonName, k, v.parent, category, v.subspeciesCode)))
  }

  /** The calls the second loop makes, entry by entry in dictionary order,
      each of which faults when its category is unknown. */
  function SubspeciesCalls(m: OrderedMap<real, SubspeciesEntry>): (calls: seq<Parsed<Request>>)
    requires OrderedValid(m)
    ensures |calls| == |m.keys|
    ensures forall i :: 0 <= i < |m.keys| ==> calls[i] == SubspeciesRequest(m.keys[i], m.values[m.keys[i]])
  {
    seq(|m.keys|, i requires 0 <= i < |m.keys| => SubspeciesRequest(m.keys[i], m.values[m.keys[i]]))
  }

  /** The calls made, and the fault, if any, that stopped them. */
  datatype Plan = Plan(reqs: seq<Request>, fault: Option<Fault>)

  /** The calls in order up to the first one that faults. */
  function UpToFault(calls: seq<Parsed<Request>>): Plan
    decreases |calls|
  {
    if |calls| == 0 then Plan([], None)
    else
      var p := UpToFault(calls[..|calls| - 1]);
      if p.fault.Some? then p
      else
        match calls[|calls| - 1]
        case Success(r) => Plan(p.reqs + [r], None)
        case Failure(e) => Plan(p.reqs, Some(e))
  }

  /** The plan is every call when none faults; otherwise the calls before the
      first fault, stopped by that fault. */
  lemma {:induction false} UpToFaultSpec(calls: seq<Parsed<Request>>)
    ensures var p := UpToFault(calls);
      (p.fault.None? <==> forall i :: 0 <= i < |calls| ==> calls[i].Success?)
      && (p.fault.None? ==> |p.reqs| == |calls|)
      && (p.fault.Some? ==> |p.reqs| < |calls| && calls[|p.reqs|] == Failure(p.fault.value))
      && (forall i :: 0 <= i < |p.reqs| ==> calls[i] == Success(p.reqs[i]))
    decreases |calls|
  {
    if |calls| > 0 {
      var n := |calls| - 1;
      var pre := calls[..n];
      var before := UpToFault(pre);
      UpToFaultSpec(pre);
      assert forall i :: 0 <= i < n ==> pre[i] == calls[i];
      if before.fault.None? && calls[n].Success? {
        var p := UpToFault(calls);
        assert p.reqs == before.reqs + [calls[n].value];
        forall i | 0 <= i < |p.reqs| ensures calls[i] == Success(p.reqs[i]) {
          if i < n {
            assert p.reqs[i] == before.reqs[i];
          }
        }
      }
    }
  }

  /** One more call extends the plan, or stops it with its fault. */
  lemma UpToFaultStep(calls: seq<Parsed<Request>>, i: nat)
    requires i < |calls| && UpToFault(calls[..i]).fault.None?
    ensures UpToFault(calls[..i + 1]) ==
      if calls[i].Success? then Plan(UpToFault(calls[..i]).reqs + [calls[i].value], None)
      else Plan(UpToFault(calls[..i]).reqs, Some(calls[i].error))
  {
    assert calls[..i + 1][..i] == calls[..i];
  }

  /** Once the plan has stopped at a fault, later calls change nothing. */
  lemma {:induction false} UpToFaultStops(calls: seq<Parsed<Request>>, n: nat)
    requires n <= |calls| && UpToFault(calls[..n]).fault.Some?
    ensures UpToFault(calls) == UpToFault(calls[..n])
    decreases |calls| - n
  {
    if n < |calls| {
      assert calls[..n + 1][..n] == calls[..n];
      UpToFaultStops(calls, n + 1);
    } else {
      assert calls[..n] == calls;
    }
  }

  /** What the second loop does. */
  function SubspeciesPlan(m: OrderedMap<real, SubspeciesEntry>): Plan
    requires OrderedValid(m)
  {
    UpToFault(SubspeciesCalls(m))
  }

  /** Entry i of the other table has a known category. */
  predicate KnownCategory(m: OrderedMap<real, SubspeciesEntry>, i: int)
    requires OrderedValid(m)
  {
    0 <= i < |m.keys| && CategoryCode(m.values[m.keys[i]].category).Success?
  }

  /** The second loop stops exactly when some entry has an unknown category,
      at the first such entry and with that category's lookup fault; until
      then it calls get_or_create for each entry by its scientific name. */
  lemma SubspeciesPlanFault(m: OrderedMap<real, SubspeciesEntry>)
    requires OrderedValid(m)
    ensures var p := SubspeciesPlan(m);
      (p.fault.None? <==> forall i :: 0 <= i < |m.keys| ==> KnownCategory(m, i))
      && (p.fault.None? ==> |p.reqs| == |m.keys|)
      && (p.fault.Some? ==> |p.reqs| < |m.keys| && !KnownCategory(m, |p.reqs|)
                            && p.fault.value == LookupFault(m.values[m.keys[|p.reqs|]].category))
      && (forall i :: 0 <= i < |p.reqs| ==>
            KnownCategory(m, i) && p.reqs[i].0 == SubSpeciesKey(m.values[m.keys[i]].scientificName))
  {
    var calls := SubspeciesCalls(m);
    UpToFaultSpec(calls);
    assert forall i :: 0 <= i < |m.keys| ==> (calls[i].Success? <==> KnownCategory(m, i));
  }

  /** What the load leaves behind: the records the session sees, those made
      durable, and the fault that stopped it, if any. */
  datatype Loaded = Loaded(db: Db, durable: Db, fault: Option<Fault>)

  /** Both loops of parsed_taxa_csv_to_db: every species, then a commit; then
      every other entry, and a commit only when no category was unknown. */
  function LoadTables(db: Db, t: Taxonomy): Loaded
    requires OrderedValid(t.species) && OrderedValid(t.subspecies)
  {
    var afterSpecies := GetOrCreateAll(db, SpeciesRequests(t.species));
    var plan := SubspeciesPlan(t.subspecies);
    var afterAll := GetOrCreateAll(afterSpecies, plan.reqs);
    if plan.fault.None? then Loaded(afterAll, afterAll, None) else Loaded(afterAll, afterSpecies, plan.fault)
  }

  /** parsed_taxa_csv_to_db: a taxonomy that cannot be read leaves the store
      as it was. */
  function TaxaToDb(db: Db, durable: Db, rows: seq<TaxonRow>): Loaded {
    match TaxonomyOf(rows)
    case Failure(e) => Loaded(db, durable, Some(e))
    case Success(st) =>
      TaxonomyOrdered(DecimalOrder, rows);
      LoadTables(db, Taxonomy(st.species, st.subspecies))
  }

  /** The load only adds records, keeps the store well formed, and makes
      durable only records the session sees. */
  lemma LoadTablesGrows(db: Db, t: Taxonomy)
    requires WellFormed(db) && OrderedValid(t.species) && OrderedValid(t.subspecies)
    ensures var o := LoadTables(db, t);
      WellFormed(o.db) && Grows(db, o.db) && Grows(db, o.durable) && SubStore(o.durable.records, o.db.records)
  {
    var afterSpecies := GetOrCreateAll(db, SpeciesRequests(t.species));
    var plan := SubspeciesPlan(t.subspecies);
    GetOrCreateAllStores(db, SpeciesRequests(t.species));
    GetOrCreateAllStores(afterSpecies, plan.reqs);
    GrowsTransitive(db, afterSpecies, GetOrCreateAll(afterSpecies, plan.reqs));
  }

  /** Every species is durable after the load, whatever the other loop does. */
  lemma LoadStoresSpecies(db: Db, t: Taxonomy, i: nat)
    requires OrderedValid(t.species) && OrderedValid(t.subspecies) && i < |t.species.keys|
    ensures SpeciesKey(t.species.values[t.species.keys[i]].scientificName) in LoadTables(db, t).durable.records
  {
    var reqs := SpeciesRequests(t.species);
    GetOrCreateAllRequested(db, reqs, i);
    var afterSpecies := GetOrCreateAll(db, reqs);
    var plan := SubspeciesPlan(t.subspecies);
    assert Grows(afterSpecies, GetOrCreateAll(afterSpecies, plan.reqs));
  }

  /** A species whose name is new to the store is created with the fields of
      the first entry, in dictionary order, carrying that name. */
  lemma LoadSpeciesFirstWins(db: Db, t: Taxonomy, i: nat)
    requires OrderedValid(t.species) && OrderedValid(t.subspecies) && i < |t.species.keys|
    requires SpeciesKey(t.species.values[t.species.keys[i]].scientificName) !in db.records
    requires forall j :: 0 <= j < i ==>
      t.species.values[t.species.keys[j]].scientificName != t.species.values[t.species.keys[i]].scientificName
    ensures SpeciesKey(t.species.values[t.species.keys[i]].scientificName) in LoadTables(db, t).durable.records
    ensures var v := t.species.values[t.species.keys[i]];
      LoadTables(db, t).durable.records[SpeciesKey(v.scientificName)].fields
        == SpeciesFields(v.commonName, t.species.keys[i], v.speciesCode)
  {
    var reqs := SpeciesRequests(t.species);
    GetOrCreateAllFirstWins(db, reqs, i);
    var afterSpecies := GetOrCreateAll(db, reqs);
    var plan := SubspeciesPlan(t.subspecies);
    assert Grows(afterSpecies, GetOrCreateAll(afterSpecies, plan.reqs));
  }

  /** The load fails exactly when some entry of the other table has an
      unknown category; otherwise every entry is durable. */
  lemma LoadOutcome(db: Db, t: Taxonomy)
    requires OrderedValid(t.species) && OrderedValid(t.subspecies)
    ensures var o := LoadTables(db, t);
      (o.fault.None? <==> forall i :: 0 <= i < |t.subspecies.keys| ==> KnownCategory(t.subspecies, i))
      && (o.fault.None? ==> o.durable == o.db)
      && (o.fault.Some? ==> o.durable == GetOrCreateAll(db, SpeciesRequests(t.species)))
      && (o.fault.None? ==> forall i :: 0 <= i < |t.subspecies.keys| ==>
            SubSpeciesKey(t.subspecies.values[t.subspecies.keys[i]].scientificName) in o.durable.records)
  {
    var n := |t.subspecies.keys|;
    var plan := SubspeciesPlan(t.subspecies);
    SubspeciesPlanFault(t.subspecies);
    var afterSpecies := GetOrCreateAll(db, SpeciesRequests(t.species));
    if plan.fault.None? {
      forall i | 0 <= i < n
        ensures SubSpeciesKey(t.subspecies.values[t.subspecies.keys[i]].scientificName) in LoadTables(db, t).durable.records
      {
        GetOrCreateAllRequested(afterSpecies, plan.reqs, i);
      }
    }
  }

  /** Loading again from what the first load made durable (the state after a
      restart) reaches the same records, the same durable state and the same
      fault: the load can be run any number of times. */
  lemma LoadTablesRerun(db: Db, t: Taxonomy)
    requires WellFormed(db) && OrderedValid(t.species) && OrderedValid(t.subspecies)
    ensures var o := LoadTables(db, t);
      LoadTables(o.durable, t) == o
  {
    var reqs := SpeciesRequests(t.species);
    var afterSpecies := GetOrCreateAll(db, reqs);
    var plan := SubspeciesPlan(t.subspecies);
    var afterAll := GetOrCreateAll(afterSpecies, plan.reqs);
    GetOrCreateAllIdempotent(db, reqs);
    GetOrCreateAllStores(db, reqs);
    if plan.fault.None? {
      GetOrCreateAllIdempotent(afterSpecies, plan.reqs);
      GetOrCreateAllStores(afterSpecies, plan.reqs);
      forall i | 0 <= i < |reqs| ensures reqs[i].0 in afterAll.records {
        assert Grows(afterSpecies, afterAll);
      }
      GetOrCreateAllPresent(afterAll, reqs);
    }
  }

  /** parsed_taxa_csv_to_db run again on the same file after the first run
      ended, from what that run made durable, ends the same way. */
  lemma TaxaToDbRerun(db: Db, durable: Db, rows: seq<TaxonRow>)
    requires WellFormed(db) && TaxonomyOf(rows).Success?
    ensures var o := TaxaToDb(db, durable, rows);
      TaxaToDb(o.durable, o.durable, rows) == o
  {
    TaxonomyOrdered(DecimalOrder, rows);
    var st := TaxonomyOf(rows).value;
    LoadTablesRerun(db, Taxonomy(st.species, st.subspecies));
  }

  /** The first loop: get_or_create for every species, in dictionary order. */
  method LoadSpecies(s: Session, m: OrderedMap<real, SpeciesEntry>)
    requires s.Valid() && OrderedValid(m)
    modifies s
    ensures s.Valid() && s.durable == old(s.durable)
    ensures s.db == GetOrCreateAll(old(s.db), SpeciesRequests(m))
  {
    ghost var start := s.db;
    ghost var reqs := SpeciesRequests(m);
    for i := 0 to |m.keys|
      invariant s.Valid() && s.durable == old(s.durable)
      invariant s.db == GetOrCreateAll(start, reqs[..i])
    {
      var k := m.keys[i];
      var v := m.values[k];
      var _, _ := s.GetOrCreateRecord(SpeciesKey(v.scientificName), SpeciesFields(v.commonName, k, v.speciesCode));
      GetOrCreateAllSnoc(start, reqs[..i], reqs[i]);
      assert reqs[..i + 1] == reqs[..i] + [reqs[i]];
    }
    assert reqs[..|m.keys|] == reqs;
  }

  /** The second loop: get_or_create for every other entry, in dictionary
      order, until a category the table does not know. */
  method LoadSubspecies(s: Session, m: OrderedMap<real, SubspeciesEntry>) returns (fault: Option<Fault>)
    requires s.Valid() && OrderedValid(m)
    modifies s
    ensures s.Valid() && s.durable == old(s.durable)
    ensures fault == SubspeciesPlan(m).fault
    ensures s.db == GetOrCreateAll(old(s.db), SubspeciesPlan(m).reqs)
  {
    ghost var start := s.db;
    ghost var calls := SubspeciesCalls(m);
    ghost var done: seq<Request> := [];
    for i := 0 to |m.keys|
      invariant s.Valid() && s.durable == old(s.durable)
      invariant UpToFault(calls[..i]) == Plan(done, None)
      invariant s.db == GetOrCreateAll(start, done)
    {
      var k := m.keys[i];
      var req := SubspeciesRequest(k, m.values[k]);
      UpToFaultStep(calls, i);
      if req.Failure? {
        UpToFaultStops(calls, i + 1);
        return Some(req.error);
      }
      GetOrCreateAllSnoc(start, done, req.value);
      var _, _ := s.GetOrCreateRecord(req.value.0, req.value.1);
      done := done + [req.value];
    }
    assert calls[..|m.keys|] == calls;
    fault := None;
  }

  /** Both loops, each followed by its commit; a fault skips the second. */
  method LoadTaxonomy(s: Session, t: Taxonomy) returns (fault: Option<Fault>)
    requires s.Valid() && OrderedValid(t.species) && OrderedValid(t.subspecies)
    modifies s
    ensures s.Valid()
    ensures Loaded(s.db, s.durable, fault) == LoadTables(old(s.db), t)
  {
    LoadSpecies(s, t.species);
    s.Commit();
    fault := LoadSubspecies(s, t.subspecies);
    if fault.None? {
      s.Commit();
    }
  }

  /** parsed_taxa_csv_to_db against the session. */
  method ParsedTaxaCsvToDb(s: Session, rows: seq<TaxonRow>) returns (fault: Option<Fault>)
    requires s.Valid()
    modifies s
    ensures s.Valid()
    ensures Loaded(s.db, s.durable, fault) == TaxaToDb(old(s.db), old(s.durable), rows)
  {
    var t := ParseTaxonomy(rows);
    if t.Failure? {
      return Some(t.error);
    }
    TaxonomyOrdered(DecimalOrder, rows);
    fault := LoadTaxonomy(s, t.value);
  }
}
