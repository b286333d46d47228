# eBird dump importer, modelled in Dafny

This project models the core of `ebird_data_parse.py`. That script imports
an eBird Basic Dataset dump, a tab-separated file with one observation per
row, into a relational store, optionally after loading the eBird taxonomy
CSV.

Each row of the dump is decoded into typed values by field codecs:

- identifiers with their prefixes stripped;
- the `X` count rule;
- `0`/`1` flags;
- dates, times and durations;
- decimals;
- the protocol table.

A category rule then decides the row's species and subspecies names. The
row is resolved into eight entities, each through `get_or_create`, in a
fixed order: state, county, locality, country, observer, Location,
Checklist and Observation. Four of the calls sit behind `lru_cache` stubs
and the country call behind a per-run `create_or_cache` dictionary.

The loop around this:

- counts every row;
- only counts rows before `start_row`;
- commits after each imported row that brings the count to a multiple of
  1000;
- handles `KeyError`, `ctrl-c` and every other exception each in its own
  way;
- commits once more when it ends without an exception.

The taxonomy load splits the CSV into a species table and a table
of everything else, then get-or-creates both.

Modules, one per file:

- `wrappers.dfy` (`Wrappers`): the `Option` and `Parsed` result types, and
  the two fault kinds. `LookupFault` is Python's `KeyError`; `ParseFault`
  is every other exception.
- `collections.dfy` (`Collections`): insertion-ordered dictionaries (`OrderedMap`, `Put`) and distinct sequences.
- `codec.dfy` (`FieldCodec`): `int()`, `Decimal()`, `parse_date`,
  `parse_time`, `parse_start_duration`, `decimal_or_none`, `int_or_none`,
  the identifier strippers, the flags, the count rule, `strptime` for the
  last-edit stamp, `protocol_words_to_code` and the category table of the
  taxonomy load.
- `store.dfy` (`Store`): natural keys, record fields (the `defaults` of each
  call), the store, `get_or_create`, and the `Session` class with its staged
  and durable views.
- `memo.dfy` (`Memo`): the `lru_cache` stubs as class `LruMemo`, and `create_or_cache` as class `KeyCache`.
- `taxonomy.dfy` (`Taxonomy`): `parse_ebird_taxonomy` as a fold with a method
  that runs it as a loop, and `parsed_taxa_csv_to_db` as two loops over the
  session.
- `rowdecode.dfy` (`RowDecode`): the per-row decoding (lines 165-237) and the category remap.
- `pipeline.dfy` (`Pipeline`): the eight calls of a row, the loop as a
  state machine, `parse_ebird_dump` as methods over the session and caches,
  and the properties of a run.

The importer's state-changing code is modelled imperatively. The session
is a class whose methods change its two views. The caches are classes
whose methods update their maps. The three loops are `for`/`while` loops.
Each method is proved equal to a function of the old state, and the
properties are proved about those functions. The cached methods are proved
to leave the store exactly as the cache-free function does, so the
function speaks for every cache state.

Two places where the docstrings and the code disagree, modelled as the code
does:

- `parse_date` (413-418) splits only on `/` and `-`, not `\`. It returns the
  tokens in the order they appear, as (year, month, day), not as mm-dd-yyyy.
- The category remap (185-196) is modelled as written. An `issf` row keeps
  both names. A `domestic`/`form` row whose name is a known SubSpecies name
  keeps neither when its subspecies cell is empty, because the reassignment
  on line 195 is commented out.

## Model

| member | source | states |
|---|---|---|
| FieldCodec.ParseInt | ebird_data_parse.py:440 | `int()` succeeds exactly on an optionally signed, non-empty run of ASCII digits; a failure is a parse fault naming the text |
| FieldCodec.ParseNat | ebird_data_parse.py:440 | the decimal text of a natural number parses back to it |
| FieldCodec.ParseIntRoundTrip | ebird_data_parse.py:440 | the text of any integer, negative ones included, parses back to it |
| FieldCodec.ParseZeroPadded | ebird_data_parse.py:217 | leading zeros do not change the value `int()` reads |
| FieldCodec.NatToString | ebird_data_parse.py:440 | the rendering of a natural is a non-empty digit string whose value is that natural |
| FieldCodec.PadDigits | ebird_data_parse.py:235 | a fixed-width rendering has exactly that width, only digits, and the value rendered |
| FieldCodec.DigitsAppend | ebird_data_parse.py:440 | the value of concatenated digit strings is the first shifted by the second's length plus the second |
| FieldCodec.LeadingZeros | ebird_data_parse.py:440 | zeros in front of digits do not change their value |
| FieldCodec.IntOrNone | ebird_data_parse.py:436-440 | empty text gives None; otherwise the integer `int()` reads, or the same parse fault |
| FieldCodec.IntOrNoneRoundTrip | ebird_data_parse.py:436-440 | the text of any integer reads back as Some of it |
| FieldCodec.Split | ebird_data_parse.py:417 | splitting always gives at least one piece |
| FieldCodec.SplitNoSeparator | ebird_data_parse.py:417 | text without a separator splits into itself alone |
| FieldCodec.SplitAtSeparator | ebird_data_parse.py:417 | a separator splits the text into the pieces of each side |
| FieldCodec.SplitJoin | ebird_data_parse.py:417 | pieces without separators, joined by one, split back into the same pieces |
| FieldCodec.Drop | ebird_data_parse.py:165-167 | slicing `[n:]` leaves the suffix after the first n characters, or nothing when the text is shorter |
| FieldCodec.LastSegmentAfterColon | ebird_data_parse.py:165 | `split(':')[-1]` is the text after the last colon |
| FieldCodec.ParseDecimal | ebird_data_parse.py:429-433 | `Decimal()` succeeds exactly on a signed literal with at most one point and at least one digit; a failure is a parse fault naming the text |
| FieldCodec.DecimalRejects | ebird_data_parse.py:429-433 | letters, a second point, a lone point, a lone sign and the empty text are parse faults |
| FieldCodec.DecimalRoundTrip | ebird_data_parse.py:429-433 | every decimal (any sign, any scale) printed and read back is the same decimal, its number of fraction digits included |
| FieldCodec.ParseDecimalText | ebird_data_parse.py:429-433 | signed digits with an optional fraction read as the signed value of all the digits, scaled by the fraction's length |
| FieldCodec.DecimalOrNone | ebird_data_parse.py:429-433 | empty text, and only empty text, gives None; other text succeeds exactly when `Decimal()` does, with its value |
| FieldCodec.MakeDateTime | ebird_data_parse.py:405-409 | the `datetime` constructor succeeds exactly on a valid calendar date and clock time, and returns it unchanged |
| FieldCodec.ParseInts | ebird_data_parse.py:417 | the list comprehension of `int()` succeeds exactly when every token parses, with one value per token, in order |
| FieldCodec.ParseTriple | ebird_data_parse.py:417-426 | a failing three-way unpack or `int()` is a parse fault |
| FieldCodec.ParseDate | ebird_data_parse.py:413-418 | `parse_date` fails only with a parse fault |
| FieldCodec.ParseTime | ebird_data_parse.py:421-426 | `parse_time` fails only with a parse fault |
| FieldCodec.ParseTripleOf | ebird_data_parse.py:413-426 | three naturals joined by any separator the split accepts read back as (first, second, third) |
| FieldCodec.ParseStartDuration | ebird_data_parse.py:387-410 | `parse_start_duration` fails only with a parse fault |
| FieldCodec.DurationIsMinutes | ebird_data_parse.py:394-398 | the duration is None exactly when its cell is empty, otherwise that many minutes; an unreadable duration fails the call |
| FieldCodec.StartCases | ebird_data_parse.py:399-409 | start is None for an empty date and time; an empty date with a time fails; a date alone succeeds exactly when it is a valid day and gives its midnight; date and time succeed exactly when both parse and form a valid instant, and give that instant |
| FieldCodec.StartDurationRoundTrip | ebird_data_parse.py:387-426 | the printed date, time and minutes of any valid instant read back as that instant and duration; the date alone reads back as its midnight |
| FieldCodec.ParseStamp | ebird_data_parse.py:235 | a stamp `strptime` accepts has the fixed `%Y-%m-%d %H:%M:%S` shape and is a valid instant |
| FieldCodec.StampRoundTrip | ebird_data_parse.py:235 | every valid instant printed in that format reads back as itself |
| FieldCodec.LastEdit | ebird_data_parse.py:233-237 | the last edit is None exactly for an empty cell; otherwise it succeeds exactly when `strptime` does, with its value |
| FieldCodec.ObservationId | ebird_data_parse.py:165 | reading the observation id fails only with a parse fault |
| FieldCodec.PrefixedId | ebird_data_parse.py:167-224 | reading a checklist, locality or observer id fails only with a parse fault |
| FieldCodec.GroupId | ebird_data_parse.py:208 | reading the group id fails only with a parse fault |
| FieldCodec.ObservationIdOf | ebird_data_parse.py:165 | the observation id is the number after the last colon once 3 characters are dropped |
| FieldCodec.PrefixedIdOf | ebird_data_parse.py:167-224 | an id read past a prefix of its width is the number after the prefix; checklist, locality and group ids have a one-character prefix, the observer id a four-character one |
| FieldCodec.GroupIdNone | ebird_data_parse.py:208 | the group id is None exactly when the cell has at most one character, so an empty cell gives None |
| FieldCodec.ChecklistIdExample | ebird_data_parse.py:167 | `S1234567` is checklist 1234567 |
| FieldCodec.ObserverIdExample | ebird_data_parse.py:217 | `obsr000123` is observer 123 |
| FieldCodec.ObservationIdExample | ebird_data_parse.py:165 | `URN:CornellLabOfOrnithology:EBIRD:OBS999` is observation 999 |
| FieldCodec.Flag | ebird_data_parse.py:206-232 | `bool(int(..))` succeeds exactly when `int()` does, and is true exactly for a non-zero value |
| FieldCodec.FlagDigits | ebird_data_parse.py:206-210 | `0` reads as false and `1` as true |
| FieldCodec.CountRule | ebird_data_parse.py:168-174 | the count is X exactly for the cell `X`, and then has no number; otherwise the number is the cell text |
| FieldCodec.Lookup | ebird_data_parse.py:495 | a dictionary lookup that fails is a lookup fault naming the key |
| FieldCodec.LookupSpec | ebird_data_parse.py:495 | a lookup succeeds exactly when some entry has the name, and returns the value of such an entry |
| FieldCodec.LookupFirst | ebird_data_parse.py:495 | a lookup returns the value of the first entry with the name |
| FieldCodec.LookupAbsent | ebird_data_parse.py:495 | a name no entry has is a lookup fault |
| FieldCodec.ProtocolCode | ebird_data_parse.py:443-495 | an unknown protocol name is a lookup fault naming it |
| FieldCodec.ProtocolCodeSpec | ebird_data_parse.py:443-495 | the mapping succeeds exactly for the 42 listed names, always with a two-digit code |
| FieldCodec.ProtocolTableCodes | ebird_data_parse.py:451-494 | every code in the table is two digits |
| FieldCodec.ProtocolCodes0 | ebird_data_parse.py:452-465 | the codes of the first 14 entries are two digits |
| FieldCodec.ProtocolCodes14 | ebird_data_parse.py:466-479 | the codes of the next 14 entries are two digits |
| FieldCodec.ProtocolCodes28 | ebird_data_parse.py:480-493 | the codes of the last 14 entries are two digits |
| FieldCodec.ProtocolHistorical | ebird_data_parse.py:481 | "Historical" maps to "62" |
| FieldCodec.ProtocolStationary | ebird_data_parse.py:453 | "Stationary" maps to "21" |
| FieldCodec.ProtocolTraveling | ebird_data_parse.py:454 | "Traveling" maps to "22" |
| FieldCodec.ProtocolIncidental | ebird_data_parse.py:452 | "Incidental" maps to "20" |
| FieldCodec.ProtocolWaterbird | ebird_data_parse.py:458 | "Waterbird Count" maps to "34" |
| FieldCodec.ProtocolWaterbirdAlias | ebird_data_parse.py:459 | its alias "RMBO Early Winter Waterbird Count" maps to "34" too |
| FieldCodec.ProtocolUnknown | ebird_data_parse.py:495 | a name outside the table raises a lookup fault naming it |
| FieldCodec.CategoryFrom | ebird_data_parse.py:130 | a category the table lacks is a lookup fault naming it |
| FieldCodec.CategoryCode | ebird_data_parse.py:130 | `cat[...]` fails only with a lookup fault naming the category |
| FieldCodec.CategoryFromSpec | ebird_data_parse.py:113 | searching from a position finds n exactly when n is at or past it and the table's n-th name is the category |
| FieldCodec.CategoryNamesDistinct | ebird_data_parse.py:113 | the seven category names are pairwise different |
| FieldCodec.CategoryCodeBijective | ebird_data_parse.py:113 | a category maps to n exactly when it is the n-th of the seven names, so the table is a bijection onto 0..6 |
| FieldCodec.CategoryCodeExamples | ebird_data_parse.py:113-130 | `issf` is 0, `hybrid` is 6, and `species` is a lookup fault |
| Collections.Put | ebird_data_parse.py:99-102 | `d[k] = v` maps k to v and leaves every other key's value; a new key goes to the end of the key order and an existing key keeps its place |
| Collections.PutValid | ebird_data_parse.py:99-102 | assignment keeps the key order distinct and in step with the entries |
| Collections.Remove | ebird_data_parse.py:316-345 | removing an element leaves exactly the others, keeps distinctness and shortens a distinct sequence by one |
| Store.GetOrCreate | ebird_data_parse.py:49-59 | created exactly when the key was absent; the record is then stored under the key; a found key changes nothing; a new record carries the defaults and the next id; the store only grows |
| Store.GetOrCreateWellFormed | ebird_data_parse.py:49-59 | the store stays well formed and the record returned is the one for the key asked |
| Store.GetOrCreateAddsAtMostOne | ebird_data_parse.py:54-59 | a call adds at most one record, and exactly one when it creates |
| Store.GetOrCreateTwice | ebird_data_parse.py:49-59 | a second call with the same key, whatever its defaults, finds the first call's record and adds nothing |
| Store.GetOrCreateAll | ebird_data_parse.py:116-133 | a sequence of calls only grows the store |
| Store.GetOrCreateAllStores | ebird_data_parse.py:116-133 | after the calls every requested key is stored and the store is well formed |
| Store.GetOrCreateAllPresent | ebird_data_parse.py:108-109 | calls whose keys are all stored change nothing |
| Store.GetOrCreateAllIdempotent | ebird_data_parse.py:108-109 | running the same calls twice is running them once |
| Store.GetOrCreateAllRequested | ebird_data_parse.py:116-133 | every requested key is stored afterwards |
| Store.GetOrCreateAllOnlyRequested | ebird_data_parse.py:116-133 | no key is stored that was neither stored before nor requested |
| Store.GetOrCreateAllFirstWins | ebird_data_parse.py:49-59 | a new key is created with the defaults of its first request |
| Store.Session.GetOrCreateRecord | ebird_data_parse.py:49-59 | the call against the session has exactly the effect and result of `get_or_create`, and leaves the durable view alone |
| Store.Session.Commit | ebird_data_parse.py:123 | a commit makes the staged view durable and changes nothing else |
| Memo.CoherentGrows | ebird_data_parse.py:316-345 | cached answers stay true while the store only grows |
| Memo.LruMemo.Call | ebird_data_parse.py:316-345 | a hit replays the cached created flag and leaves the store alone; a miss runs `get_or_create` and caches its pair, changing no other entry; the record is always the uncached one; the recency order is updated with least-recently-used eviction |
| Memo.StateRequest | ebird_data_parse.py:316-321 | the state stub looks up by state code |
| Memo.CountyRequest | ebird_data_parse.py:324-329 | the county stub looks up by county code |
| Memo.LocalityRequest | ebird_data_parse.py:332-337 | the locality stub looks up by locality id |
| Memo.ObserverRequest | ebird_data_parse.py:340-345 | the observer stub looks up by observer id with no defaults |
| Memo.KeyCache.CreateOrCache | ebird_data_parse.py:369-384 | a hit returns the cached key and touches neither store nor cache; a miss runs `get_or_create` once and caches the record's key under `val` only |
| Memo.KeyCache.CreateOrCacheOrNone | ebird_data_parse.py:357-366 | an empty value gives None and changes nothing; otherwise as `create_or_cache` |
| Memo.CachedHitIsUncached | ebird_data_parse.py:369-384 | a cache hit leaves the store as an uncached `get_or_create` would |
| Taxonomy.ParentName | ebird_data_parse.py:95-97 | the parent is None exactly for an empty code; it fails exactly for a code not yet seen, with a lookup fault naming it |
| Taxonomy.StepFacts | ebird_data_parse.py:86-102 | a row succeeds exactly when its order is a decimal and its parent code is empty or seen, itself included; its code is recorded |
| Taxonomy.StepSpecies | ebird_data_parse.py:98-99 | a species row is put into the species table, any other row leaves it |
| Taxonomy.StepSubspecies | ebird_data_parse.py:100-102 | a non-species row is put into the other table with its parent name, a species row leaves it |
| Taxonomy.CodeIsLatest | ebird_data_parse.py:92 | a code is recorded exactly when some row carries it, with the scientific name of the last such row |
| Taxonomy.LastRowFaults | ebird_data_parse.py:93-97 | the last row makes the fold fail exactly when it faults, with its fault; otherwise its parent is the latest name for its code |
| Taxonomy.SucceedsWithoutFaults | ebird_data_parse.py:85-103 | when the fold succeeds no row faults |
| Taxonomy.FaultFails | ebird_data_parse.py:85-103 | any faulting row makes the fold fail |
| Taxonomy.TaxonomyFirstFault | ebird_data_parse.py:85-103 | a failing fold fails with the fault of the first faulting row |
| Taxonomy.FailurePersists | ebird_data_parse.py:85-103 | once a prefix fails, the whole fold fails in the same way |
| Taxonomy.SpeciesKeys | ebird_data_parse.py:98-99 | an order is a species key exactly when some species row has it |
| Taxonomy.SpeciesLastWins | ebird_data_parse.py:98-99 | a species key holds the entry of the last species row with that order |
| Taxonomy.SubspeciesKeys | ebird_data_parse.py:100-102 | an order is a key of the other table exactly when some non-species row has it |
| Taxonomy.SubspeciesLastWins | ebird_data_parse.py:100-102 | that key holds the entry of the last such row, parent included |
| Taxonomy.TaxonomyOrdered | ebird_data_parse.py:80-103 | both tables keep a distinct insertion order in step with their entries |
| Taxonomy.TableKeysFirstSeen | ebird_data_parse.py:85-103 | each table lists its orders in the order their first rows appear in the CSV, which is the order the load's loops at lines 116 and 125 walk |
| Taxonomy.ParseTaxonomy | ebird_data_parse.py:64-103 | the loop returns exactly the two tables of the fold, or its fault |
| Taxonomy.SpeciesRequest | ebird_data_parse.py:117-122 | a species is got by scientific name, with its order among the defaults |
| Taxonomy.SpeciesRequests | ebird_data_parse.py:116-122 | one species call per table entry, in insertion order |
| Taxonomy.SubspeciesRequest | ebird_data_parse.py:126-133 | the call fails exactly for an unknown category, with a lookup fault naming it; otherwise it gets by scientific name |
| Taxonomy.SubspeciesCalls | ebird_data_parse.py:125-133 | one call per entry of the other table, in insertion order |
| Taxonomy.UpToFaultSpec | ebird_data_parse.py:125-133 | the calls made are those before the first fault, which is reported; no fault exactly when all succeed |
| Taxonomy.UpToFaultStops | ebird_data_parse.py:125-133 | nothing after the first fault changes the outcome |
| Taxonomy.SubspeciesPlanFault | ebird_data_parse.py:125-134 | the second loop raises exactly when some category is unknown, at the first such entry; the calls before it get each entry by name |
| Taxonomy.LoadTablesGrows | ebird_data_parse.py:115-134 | the load keeps the store well formed, only adds records, and makes durable only what the session sees |
| Taxonomy.LoadStoresSpecies | ebird_data_parse.py:116-123 | every species is durable after the load, whatever the second loop does |
| Taxonomy.LoadSpeciesFirstWins | ebird_data_parse.py:116-122 | a new species is created with the fields of the first entry carrying its name |
| Taxonomy.LoadOutcome | ebird_data_parse.py:115-134 | the load fails exactly when a category is unknown; then only the species commit is durable; otherwise everything is durable, every entry included |
| Taxonomy.LoadTablesRerun | ebird_data_parse.py:108-109 | loading again from what the load made durable ends in the same state with the same fault: the load is idempotent |
| Taxonomy.TaxaToDbRerun | ebird_data_parse.py:106-134 | running `parsed_taxa_csv_to_db` again on the same rows, from what the first run made durable, ends the same way |
| Taxonomy.LoadSpecies | ebird_data_parse.py:116-122 | the first loop runs the species calls in order and commits nothing |
| Taxonomy.LoadSubspecies | ebird_data_parse.py:125-133 | the second loop runs the calls before the first unknown category and returns that fault |
| Taxonomy.LoadTaxonomy | ebird_data_parse.py:115-134 | both loops with their commits leave the session and fault that the load function describes |
| Taxonomy.ParsedTaxaCsvToDb | ebird_data_parse.py:106-134 | the whole of `parsed_taxa_csv_to_db` against the session, a taxonomy fault leaving it untouched |
| RowDecode.Column | ebird_data_parse.py:165-237 | `row[name]` succeeds exactly when the column is present, and a missing one is a lookup fault naming it |
| RowDecode.FloatValue | ebird_data_parse.py:219-220 | a coordinate fails exactly when it is not a decimal, with a parse fault |
| RowDecode.RemapAggregate | ebird_data_parse.py:190-192 | a spuh, slash or hybrid has no species and its scientific name as subspecies |
| RowDecode.RemapVarietyKnown | ebird_data_parse.py:193-196 | a domestic or form row with a known name loses its species and keeps its subspecies cell, None when empty |
| RowDecode.RemapOther | ebird_data_parse.py:185-196 | every other row keeps its species name, and its subspecies cell, None when empty |
| RowDecode.RemapNotExclusive | ebird_data_parse.py:185-196 | an issf row keeps both names; a known domestic row with an empty cell gets neither |
| RowDecode.DecodeObservation | ebird_data_parse.py:165-196 | a lookup fault names a missing column; success carries the observation and checklist ids of their cells, the count rule of the count cell, and the remap of the category and both names |
| RowDecode.DecodeEffort | ebird_data_parse.py:198-205 | a lookup fault names a missing column |
| RowDecode.DecodeReview | ebird_data_parse.py:206-214 | a lookup fault names a missing column or an unlisted protocol; success carries the protocol's code |
| RowDecode.DecodeObserved | ebird_data_parse.py:217-221 | a lookup fault names a missing column; success carries the observer id of its cell |
| RowDecode.DecodePlace | ebird_data_parse.py:222-231 | a lookup fault names a missing column; success carries the locality id of its cell |
| RowDecode.DecodeEdited | ebird_data_parse.py:232-237 | a lookup fault names a missing column |
| RowDecode.DecodeRow | ebird_data_parse.py:165-237 | a `KeyError` of the row names a missing column or an unlisted protocol; a decoded row carries the ids, protocol code and count its cells give, and the remapped taxon of its category and names |
| Pipeline.SubspeciesNames | ebird_data_parse.py:148 | the set holds exactly the names of the stored SubSpecies |
| Pipeline.CountryRequest | ebird_data_parse.py:246-248 | the country is got by country code |
| Pipeline.LocationRequest | ebird_data_parse.py:255-257 | the Location is got by its point, with the row's locality id and region codes as defaults |
| Pipeline.ChecklistRequest | ebird_data_parse.py:259-270 | the Checklist is got by checklist id, with the Location's id and the protocol code among the defaults |
| Pipeline.ObservationRequest | ebird_data_parse.py:273-288 | the Observation is got by observation id, pointing at its checklist and observer and carrying the remapped names |
| Pipeline.ResolvedGrows | ebird_data_parse.py:240-288 | the calls of a row only grow the store and keep it well formed |
| Pipeline.ResolvedKeys | ebird_data_parse.py:240-288 | after the first n calls the stored keys are the old ones plus the keys of those n calls |
| Pipeline.ResolvedOnly | ebird_data_parse.py:240-288 | a key none of the calls asks for is stored afterwards exactly when it was before |
| Pipeline.ResolvedPresent | ebird_data_parse.py:240-288 | calls whose keys are all stored change nothing |
| Pipeline.ResolveRowGrows | ebird_data_parse.py:240-288 | a row only grows the store and keeps it well formed |
| Pipeline.ResolveRowKeys | ebird_data_parse.py:240-288 | a row adds exactly its eight keys |
| Pipeline.ResolveRowPresent | ebird_data_parse.py:240-288 | a row whose keys are all stored changes nothing |
| Pipeline.ResolveRowIdempotent | ebird_data_parse.py:240-288 | resolving the same row twice is resolving it once |
| Pipeline.ResolveRowCreatesObservation | ebird_data_parse.py:273-288 | a new observation is stored with the row's fields |
| Pipeline.StoredTaxonOfRow | ebird_data_parse.py:180-196 | a raw row's new Observation is stored with the `species_id` and `subspecies_id` the remap picks from its category and names; a spuh, slash or hybrid has no species and points at its own scientific name |
| Pipeline.ResolveRowCreatesChecklist | ebird_data_parse.py:255-270 | a new checklist is stored pointing at the id of the row's Location |
| Pipeline.ApplyLinked | ebird_data_parse.py:255-288 | a call whose defaults point at stored records keeps every reference resolvable |
| Pipeline.RowRequestLinked | ebird_data_parse.py:238-288 | each call's defaults point only at records the earlier calls of the row stored |
| Pipeline.ResolvedLinked | ebird_data_parse.py:240-288 | every prefix of a row's calls keeps every reference resolvable |
| Pipeline.ResolveRowLinked | ebird_data_parse.py:240-288 | every Location, Checklist and Observation reference names a stored record after a row |
| Pipeline.ResolveRowKeepsTaxa | ebird_data_parse.py:240-288 | a row never adds a SubSpecies |
| Pipeline.DecodeAll | ebird_data_parse.py:158-237 | each row is decoded on its own, one result per row |
| Pipeline.StepConsistent | ebird_data_parse.py:158-310 | one iteration keeps the store well formed and linked and only grows both views |
| Pipeline.RunConsistent | ebird_data_parse.py:157-310 | the loop keeps that invariant and only grows both views |
| Pipeline.RunCount | ebird_data_parse.py:158-162 | while the loop runs, the count is the number of rows read, skipped rows included |
| Pipeline.RunStopsAtCount | ebird_data_parse.py:157-310 | a stopped loop stopped on the row its count names |
| Pipeline.RunStopped | ebird_data_parse.py:299-310 | nothing after a stop changes the state |
| Pipeline.RunSkips | ebird_data_parse.py:160-162 | rows before `start_row` are counted and change nothing |
| Pipeline.LastCommit | ebird_data_parse.py:290-292 | the last commit point up to n commits, and none comes after it |
| Pipeline.RunDurable | ebird_data_parse.py:290-292 | while running, what is durable is the store as of the last batch commit, or what was durable before |
| Pipeline.LastCommitRecent | ebird_data_parse.py:290-292 | less than a batch of rows is ever staged without a commit |
| Pipeline.FirstCommit | ebird_data_parse.py:290-292 | the first commit comes at the first multiple of 1000 past `start_row`, at most 1000 rows in, not after 1000 imported rows |
| Pipeline.RunRaises | ebird_data_parse.py:299-310 | a row that raises ends the run with that fault; a `KeyError` commits nothing more; any other exception commits the earlier rows; the final commit is skipped |
| Pipeline.RunRaisesOnRow | ebird_data_parse.py:157-310 | the same for a raw row, whose `KeyError` names a missing column or an unlisted protocol |
| Pipeline.RunInterrupted | ebird_data_parse.py:303-312 | `ctrl-c` ends the run interrupted, with everything staged durable and the count unchanged |
| Pipeline.RunBeforeInterrupt | ebird_data_parse.py:303-305 | up to the interrupt, the run is the uninterrupted one |
| Pipeline.RunKeepsTaxa | ebird_data_parse.py:148-288 | the loop never adds a SubSpecies, so the names read before it stay the store's |
| Pipeline.Resumes | ebird_data_parse.py:157-162 | restarting at row c, from the store the run had reached there, goes on as that run |
| Pipeline.ResumeAfterInterrupt | ebird_data_parse.py:148-312 | after `ctrl-c` at row c, a new run started at c from what was made durable ends as the run that was never interrupted |
| Pipeline.RunStoresRows | ebird_data_parse.py:240-290 | a run still going has decoded and stored every key of every row from `start_row` on |
| Pipeline.RerunFixed | ebird_data_parse.py:157-312 | rows whose keys are all stored leave the store as it is |
| Pipeline.RunIdempotent | ebird_data_parse.py:157-312 | importing the file again over what a finished run committed changes nothing: no duplicate is ever created |
| Pipeline.CommitSession | ebird_data_parse.py:305 | a commit inside the loop makes the staged view durable and keeps the caches sound |
| Pipeline.StubCall | ebird_data_parse.py:240-253 | a stub call has exactly the effect and record of the uncached call |
| Pipeline.CountryCall | ebird_data_parse.py:246-248 | the cached country call has exactly the effect of the uncached call |
| Pipeline.CachedLookups | ebird_data_parse.py:240-253 | the five cached calls have the effect of the first five calls uncached, and return the row's observer |
| Pipeline.DependentStages | ebird_data_parse.py:255-288 | the last three calls are the Location, the Checklist pointing at that Location's id, and the Observation |
| Pipeline.ResolveDependents | ebird_data_parse.py:255-288 | the last three calls complete the row's resolution |
| Pipeline.CachedResolveRow | ebird_data_parse.py:240-288 | the eight calls through the caches resolve the row exactly as without them |
| Pipeline.StepImports | ebird_data_parse.py:290-292 | an imported row is resolved, counted, and committed exactly when the count reaches a multiple of 1000 |
| Pipeline.ImportRow | ebird_data_parse.py:238-292 | the method resolves the row, counts it, and commits on a batch multiple |
| Pipeline.ProcessRow | ebird_data_parse.py:158-310 | one iteration against the session is one step of the state machine |
| Pipeline.ParseRows | ebird_data_parse.py:157-310 | the loop over the file against the session ends in the state the state machine reaches |
| Pipeline.RunFinishes | ebird_data_parse.py:311-312 | the run is the loop followed by the final commit, which a raise skips |
| Pipeline.ParseDump | ebird_data_parse.py:140-313 | the import of the file leaves the session, count and outcome the run function describes |
| Pipeline.LoadedNamesKnown | ebird_data_parse.py:143-148 | a taxonomy load without fault stores every entry of its second table under its name, so the names read before the loop include them |
| Pipeline.EbirdDumpKnowsTaxonomy | ebird_data_parse.py:143-148 | after a taxonomy load without fault, every entry of its second table is a known name for the remap and is still stored when the import ends |
| Pipeline.ParseEbirdDump | ebird_data_parse.py:138-313 | `parse_ebird_dump` as a whole, the taxonomy load included, leaves the session, count and outcome the model describes |

## Left out

- The SQLAlchemy engine and `init_sqlalchemy` (lines 18-35): the store is an
  abstract map from natural keys to records, and the session is a staged view
  plus a durable view.
- Rollback: a raise with no commit leaves the staged records in the model's
  session. The process then ends, so they never become durable, which is the
  view the properties are stated on. The surrogate-id counter also never goes
  back.
- The schema's uniqueness and NOT NULL constraints, and with them the
  `IntegrityError` recovery in `get_or_create` (lines 55-61): in the model
  get_or_create never fails. In `models.py` the County, StateProvince and
  Country tables are keyed, or made unique, by the name rather than the code
  the importer looks them up by (lines 247, 319, 327), so a second code with a
  name already stored makes the insert fail without any other writer; the
  re-query then finds nothing and the generic handler (lines 306-310) commits
  and re-raises. The model does not have that path.
- The `len(kwargs) == 1` branch of `create_or_cache` (line 378-379): the one
  caller passes four arguments; the key column is taken from the record's
  natural key.
- Reading the CSV and TSV files (lines 83-85, 150-152): rows are given
  already split, as maps from column name to cell. A column missing from the
  header is a lookup fault. `csv.DictReader` also gives a short line `None`
  cells, on which slicing or `int()` raises `TypeError`, a commit-and-raise
  fault of the handler at lines 306-310; a `Row` maps names to strings and
  cannot hold a `None` cell, so that case is not modelled.
- Printing, `curr_time`, the cache statistics, `argparse` and `__main__`
  (lines 293-298, 300-301, 304, 307-308, 313, 348-354, 498-519).
- `species_sci_names` (line 147) is computed and never used.
- `models.py` and `database_setup.py` are not part of this model. The field
  lists come from the `defaults` dictionaries of the calls.
- RowDecode.FloatValue: latitude and longitude (lines 219-221) are read as
  exact decimals rather than binary floats, and the point is an opaque key of
  the Location. Like ParseDecimal it refuses the surrounding whitespace,
  underscores, non-ASCII digits, exponents, `inf` and `nan` that `float()`
  also takes.
- FieldCodec.ParseInt: it accepts only an optional sign and ASCII digits. It
  leaves out the surrounding whitespace, underscores and non-ASCII digits
  that Python's `int()` also takes.
- FieldCodec.ParseDecimal: it accepts a sign, digits and an optional
  fraction. It leaves out the surrounding whitespace, underscores, non-ASCII
  digits, exponents, `NaN` and `Infinity` that `Decimal()` also takes.
- FieldCodec.ParseStamp: it accepts only the fixed-width form. `strptime`
  also takes single-digit fields.
- FieldCodec.ParseStartDuration: `timedelta` overflow for huge minute counts
  is not modelled.
- The `lru_cache` is modelled by its results, with least-recently-used
  eviction. Its thread safety and its statistics are not modelled. The
  module-level caches start empty on each run.
- Pipeline.ParseEbirdDump: `ctrl-c` is modelled only between rows of the
  dump. An interrupt inside a row, or inside the taxonomy load, is not
  modelled.
- The `observer_id == ''` branch (lines 250-251) is never taken, because the
  id is already an integer. The model always makes the observer call.
- Unknown protocol names raise `KeyError`, which the loop's handler reports as
  an unknown column and does not commit. The model gives them the same fault
  kind as a missing column.
- The Observation's species and subspecies references are not checked
  against stored taxa: the importer does not ensure them.
