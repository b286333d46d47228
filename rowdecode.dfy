/** The per-row decoding of parse_ebird_dump: each column of an eBird
    observation row read and converted in the order the importer reads it,
    and the rule that decides which taxon an observation points at. */
module RowDecode {
  import opened Wrappers
  import opened FieldCodec
  import opened Store

  /** One line of the observation file: column header to cell. */
  type Row = map<string, string>

  /** row[name]: a missing column is a lookup fault naming it. */
  function Column(row: Row, name: string): (r: Parsed<string>)
    ensures r.Success? <==> name in row
    ensures r.Success? ==> r.value == row[name]
    ensures r.Failure? ==> r.error == LookupFault(name)
  {
    if name in row then Success(row[name]) else Failure(LookupFault(name))
  }

  /** float(s) on LATITUDE and LONGITUDE, read exactly as a decimal literal. */
  function FloatValue(s: string): (r: Parsed<real>)
    ensures r.Failure? <==> ParseDecimal(s).Failure?
    ensures r.Failure? ==> r.error == ParseFault(s)
  {
    var d :- ParseDecimal(s);
    Success(DecimalValue(d))
  }

  // ---------------------------------------------------------------------------
  // Which taxon an observation points at

  /** The Observation's species_id and subspecies_id. */
  datatype TaxonIds = TaxonIds(speciesId: Option<string>, subspeciesId: Option<string>)

  predicate IsAggregate(category: string) {
    category == "spuh" || category == "slash" || category == "hybrid"
  }

  predicate IsVariety(category: string) {
    category == "domestic" || category == "form"
  }

  /** The remap: spuhs, slashes and hybrids are stored as SubSpecies under
      their own scientific name; a domestic form or form whose scientific name
      is a known SubSpecies loses its species, and nothing is put in its
      place; every other row keeps both names, an empty subspecies name being
      none. */
  function Remap(category: string, scientificName: string, subspeciesName: string, known: set<string>): TaxonIds {
    var subspecies := if subspeciesName == "" then None else Some(subspeciesName);
    if IsAggregate(category) then TaxonIds(None, Some(scientificName))
    else if IsVariety(category) && scientificName in known then TaxonIds(None, subspecies)
    else TaxonIds(Some(scientificName), subspecies)
  }

  /** Spuhs, slashes and hybrids point at the SubSpecies of their own name. */
  lemma RemapAggregate(category: string, scientificName: string, subspeciesName: string, known: set<string>)
    requires IsAggregate(category)
    ensures Remap(category, scientificName, subspeciesName, known) == TaxonIds(None, Some(scientificName))
  {
  }

  /** Domestic forms and forms whose name is a known SubSpecies only lose the
      species; the subspecies column is kept as it was read. */
  lemma RemapVarietyKnown(category: string, scientificName: string, subspeciesName: string, known: set<string>)
    requires IsVariety(category) && scientificName in known
    ensures var r := Remap(category, scientificName, subspeciesName, known);
      r.speciesId == None && (r.subspeciesId == None <==> subspeciesName == "")
      && (subspeciesName != "" ==> r.subspeciesId == Some(subspeciesName))
  {
  }

  /** Every other row keeps its species, and its subspecies unless that cell
      is empty. */
  lemma RemapOther(category: string, scientificName: string, subspeciesName: string, known: set<string>)
    requires !IsAggregate(category) && !(IsVariety(category) && scientificName in known)
    ensures var r := Remap(category, scientificName, subspeciesName, known);
      r.speciesId == Some(scientificName)
      && (r.subspeciesId == None <==> subspeciesName == "")
      && (subspeciesName != "" ==> r.subspeciesId == Some(subspeciesName))
  {
  }

  /** The remap is not an exclusive choice: a subspecies row keeps both
      names, and a known domestic form without a subspecies cell keeps
      neither. */
  lemma RemapNotExclusive()
    ensures Remap("issf", "Anas platyrhynchos", "Anas platyrhynchos diazi", {})
      == TaxonIds(Some("Anas platyrhynchos"), Some("Anas platyrhynchos diazi"))
    ensures Remap("domestic", "Anser anser (Domestic type)", "", {"Anser anser (Domestic type)"})
      == TaxonIds(None, None)
  {
    assert !IsAggregate("issf") && !IsVariety("issf");
    assert IsVariety("domestic");
  }

  // ---------------------------------------------------------------------------
  // The row, section by section. Each section reads its columns in the
  // importer's order; a lookup fault from any of them names a column the row
  // lacks, except the protocol table's.

  /** The observation's own columns (GLOBAL UNIQUE IDENTIFIER to SUBSPECIES
      SCIENTIFIC NAME, lines 165-196). */
  datatype ObservationPart = ObservationPart(
    observationId: int, checklistId: int, count: ObservedCount, ageSex: string, speciesComments: string,
    taxon: TaxonIds)

  function DecodeObservation(row: Row, known: set<string>): (r: Parsed<ObservationPart>)
    ensures r.Failure? && r.error.LookupFault? ==> r.error.name !in row
    ensures r.Success? ==> "GLOBAL UNIQUE IDENTIFIER" in row && "SAMPLING EVENT IDENTIFIER" in row
    ensures r.Success? ==> ObservationId(row["GLOBAL UNIQUE IDENTIFIER"]) == Success(r.value.observationId)
    ensures r.Success? ==> PrefixedId(row["SAMPLING EVENT IDENTIFIER"], 1) == Success(r.value.checklistId)
    ensures r.Success? ==> "OBSERVATION COUNT" in row && r.value.count == CountRule(row["OBSERVATION COUNT"])
    ensures r.Success? ==>
      "CATEGORY" in row && "SCIENTIFIC NAME" in row && "SUBSPECIES SCIENTIFIC NAME" in row
      && r.value.taxon == Remap(row["CATEGORY"], row["SCIENTIFIC NAME"], row["SUBSPECIES SCIENTIFIC NAME"], known)
  {
    var guid :- Column(row, "GLOBAL UNIQUE IDENTIFIER");
    var observationId :- ObservationId(guid);
    var event :- Column(row, "SAMPLING EVENT IDENTIFIER");
    var checklistId :- PrefixedId(event, 1);
    var count :- Column(row, "OBSERVATION COUNT");
    var ageSex :- Column(row, "AGE/SEX");
    var speciesComments :- Column(row, "SPECIES COMMENTS");
    var category :- Column(row, "CATEGORY");
    var scientificName :- Column(row, "SCIENTIFIC NAME");
    var subspeciesName :- Column(row, "SUBSPECIES SCIENTIFIC NAME");
    Success(ObservationPart(observationId, checklistId, CountRule(count), ageSex, speciesComments,
                            Remap(category, scientificName, subspeciesName, known)))
  }

  /** The checklist's start, duration and effort (lines 198-205). */
  datatype Effort = Effort(
    startDuration: StartDuration, comments: string, distance: Option<Decimal>, area: Option<Decimal>,
    numberOfObservers: Option<int>)

  function DecodeEffort(row: Row): (r: Parsed<Effort>)
    ensures r.Failure? && r.error.LookupFault? ==> r.error.name !in row
  {
    var date :- Column(row, "OBSERVATION DATE");
    var time :- Column(row, "TIME OBSERVATIONS STARTED");
    var minutes :- Column(row, "DURATION MINUTES");
    var startDuration :- ParseStartDuration(date, time, minutes);
    var comments :- Column(row, "TRIP COMMENTS");
    var distanceText :- Column(row, "EFFORT DISTANCE KM");
    var distance :- DecimalOrNone(distanceText);
    var areaText :- Column(row, "EFFORT AREA HA");
    var area :- DecimalOrNone(areaText);
    var observersText :- Column(row, "NUMBER OBSERVERS");
    var observers :- IntOrNone(observersText);
    Success(Effort(startDuration, comments, distance, area, observers))
  }

  /** The checklist's flags, group and protocol (lines 206-214). */
  datatype Review = Review(
    complete: bool, groupId: Option<int>, approved: bool, reviewed: bool, reason: string, protocol: string,
    projectCode: string)

  function DecodeReview(row: Row): (r: Parsed<Review>)
    ensures r.Failure? && r.error.LookupFault? ==>
      r.error.name !in row || ("PROTOCOL TYPE" in row && r.error.name == row["PROTOCOL TYPE"]
                               && ProtocolCode(r.error.name).Failure?)
    ensures r.Success? ==> "PROTOCOL TYPE" in row && ProtocolCode(row["PROTOCOL TYPE"]) == Success(r.value.protocol)
  {
    var completeText :- Column(row, "ALL SPECIES REPORTED");
    var complete :- Flag(completeText);
    var groupText :- Column(row, "GROUP IDENTIFIER");
    var groupId :- GroupId(groupText);
    var approvedText :- Column(row, "APPROVED");
    var approved :- Flag(approvedText);
    var reviewedText :- Column(row, "REVIEWED");
    var reviewed :- Flag(reviewedText);
    var reason :- Column(row, "REASON");
    var protocolText :- Column(row, "PROTOCOL TYPE");
    var protocol :- ProtocolCode(protocolText);
    var projectCode :- Column(row, "PROJECT CODE");
    Success(Review(complete, groupId, approved, reviewed, reason, protocol, projectCode))
  }

  /** The observer and the point (lines 217-221). */
  datatype Observed = Observed(observerId: int, coords: Coords)

  function DecodeObserved(row: Row): (r: Parsed<Observed>)
    ensures r.Failure? && r.error.LookupFault? ==> r.error.name !in row
    ensures r.Success? ==> "OBSERVER ID" in row && PrefixedId(row["OBSERVER ID"], 4) == Success(r.value.observerId)
  {
    var observerText :- Column(row, "OBSERVER ID");
    var observerId :- PrefixedId(observerText, 4);
    var latText :- Column(row, "LATITUDE");
    var lat :- FloatValue(latText);
    var lonText :- Column(row, "LONGITUDE");
    var lon :- FloatValue(lonText);
    Success(Observed(observerId, Coords(lon, lat)))
  }

  /** The locality and the regions it lies in (lines 222-231). */
  datatype Place = Place(
    localityName: string, localityId: int, localityType: string, stateCode: string, countyCode: string,
    county: string, state: string, country: string, countryCode: string)

  function DecodePlace(row: Row): (r: Parsed<Place>)
    ensures r.Failure? && r.error.LookupFault? ==> r.error.name !in row
    ensures r.Success? ==> "LOCALITY ID" in row && PrefixedId(row["LOCALITY ID"], 1) == Success(r.value.localityId)
  {
    var localityName :- Column(row, "LOCALITY");
    var localityText :- Column(row, "LOCALITY ID");
    var localityId :- PrefixedId(localityText, 1);
    var localityType :- Column(row, "LOCALITY TYPE");
    var stateCode :- Column(row, "STATE CODE");
    var countyCode :- Column(row, "COUNTY CODE");
    var county :- Column(row, "COUNTY");
    var state :- Column(row, "STATE");
    var country :- Column(row, "COUNTRY");
    var countryCode :- Column(row, "COUNTRY CODE");
    Success(Place(localityName, localityId, localityType, stateCode, countyCode, county, state, country, countryCode))
  }

  /** The media flag and the last-edit stamp (lines 232-237). */
  datatype Edited = Edited(hasMedia: bool, lastEdit: Option<DateTime>)

  function DecodeEdited(row: Row): (r: Parsed<Edited>)
    ensures r.Failure? && r.error.LookupFault? ==> r.error.name !in row
  {
    var mediaText :- Column(row, "HAS MEDIA");
    var hasMedia :- Flag(mediaText);
    var editText :- Column(row, "LAST EDITED DATE");
    var lastEdit :- LastEdit(editText);
    Success(Edited(hasMedia, lastEdit))
  }

  /** A whole decoded row. */
  datatype DecodedRow = DecodedRow(
    observation: ObservationPart, effort: Effort, review: Review, observed: Observed, place: Place, edited: Edited)

  /** Lines 165-237 of the loop body: everything read from the row before the
      first get_or_create, the first fault stopping it. The importer's
      KeyError handler reports an unknown column, but a protocol name the
      table does not list raises KeyError too; every other lookup fault names
      a missing column. A row that decodes carries the identifiers, the
      protocol code and the count the codecs read from its cells, and the
      taxon the remap chooses from its category and names. */
  function DecodeRow(row: Row, known: set<string>): (r: Parsed<DecodedRow>)
    ensures r.Failure? && r.error.LookupFault? ==>
      r.error.name !in row || ("PROTOCOL TYPE" in row && r.error.name == row["PROTOCOL TYPE"]
                               && ProtocolCode(r.error.name).Failure?)
    ensures r.Success? ==>
      "GLOBAL UNIQUE IDENTIFIER" in row
      && ObservationId(row["GLOBAL UNIQUE IDENTIFIER"]) == Success(r.value.observation.observationId)
    ensures r.Success? ==>
      "SAMPLING EVENT IDENTIFIER" in row
      && PrefixedId(row["SAMPLING EVENT IDENTIFIER"], 1) == Success(r.value.observation.checklistId)
    ensures r.Success? ==> "OBSERVER ID" in row && PrefixedId(row["OBSERVER ID"], 4) == Success(r.value.observed.observerId)
    ensures r.Success? ==> "LOCALITY ID" in row && PrefixedId(row["LOCALITY ID"], 1) == Success(r.value.place.localityId)
    ensures r.Success? ==> "PROTOCOL TYPE" in row && ProtocolCode(row["PROTOCOL TYPE"]) == Success(r.value.review.protocol)
    ensures r.Success? ==>
      "OBSERVATION COUNT" in row && r.value.observation.count == CountRule(row["OBSERVATION COUNT"])
    ensures r.Success? ==>
      "CATEGORY" in row && "SCIENTIFIC NAME" in row && "SUBSPECIES SCIENTIFIC NAME" in row
      && r.value.observation.taxon
         == Remap(row["CATEGORY"], row["SCIENTIFIC NAME"], row["SUBSPECIES SCIENTIFIC NAME"], known)
  {
    var observation :- DecodeObservation(row, known);
    var effort :- DecodeEffort(row);
    var review :- DecodeReview(row);
    var observed :- DecodeObserved(row);
    var place :- DecodePlace(row);
    var edited :- DecodeEdited(row);
    Success(DecodedRow(observation, effort, review, observed, place, edited))
  }
}
