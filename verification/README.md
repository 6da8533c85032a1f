# ASTRA ingestion pipeline, modelled in Dafny

ASTRA collects near-Earth-object data from NASA's NeoWS and JPL's Small-Body Database. It
validates each record against a schema, upserts it into an `asteroids` table, and derives
threat features from that table. This project models the core of that pipeline as Dafny
functions, methods and classes, and proves what each step promises:

- `values.dfy` (module `Values`): decoded JSON. An object is an ordered list of members, so
  dictionary insertion order is kept, and a lookup takes the last member with the key. The
  file also holds Python's `d[k]`, `d.get(k, default)` and iteration over a decoded value,
  with `Outcome` (returned or raised) and `Option` (a value or `None`).
- `validate.dfy` (module `Validate`): `AsteroidSchema` written as a table of seventeen field
  specifications, with the pydantic bounds `gt`/`ge`/`lt`/`le`. It covers `validate_asteroid`
  (validation, `model_dump(exclude_none=True)`, the `cad_data` cap of 1000 entries) and the
  derived `tisserand` field.
- `database.py`'s `upsert_asteroid` becomes the class `Database.AsteroidDatabase`. Its field
  `rows` maps each `id` to a row holding every column of the `asteroids` table, with NULL as
  `JNull`. The method `UpsertAsteroid` keeps the source's `setattr` loop and is proved against
  the function `Upserted`.
- `fetch.py`'s normalisers (module `Fetch`): the NeoWS detail record, the SBDB record, and
  `_process_data` with `_fetch_and_process`. The triple loop of `_process_feed_data` is kept
  as three methods, each proved equal to a recursive flattening (`FlatMap`).
- `update.py`'s `run_update` becomes the class `Update.DataUpdater`. The batch loop and the
  per-object `try`/`except` are kept as methods and proved equal to `RunUpdateSpec`, which
  folds `ObjectStep` over the catalogue.
- `preprocess.py` (module `Preprocess`): the per-row threat score, Palermo value and Torino
  bucket over pandas floats, including infinities and NaN. It also models
  `preprocess_from_db`'s rule that an empty result, or any exception, gives `None`.

`NASADataFetcher` in `src/pipeline/fetch.py` defines none of `fetch_all_neos`,
`fetch_neo_complete` or `db`, yet `update.py` calls all three. The model takes the catalogue,
the record completion and the database as inputs. A catalogue call that raises is one of the
inputs `RunUpdateSpec` covers, and the run then returns `False`.

## Model

| member | source | states |
|---|---|---|
| Values.Subscript | src/pipeline/fetch.py:50-62 | `d[k]` returns exactly when `d` is a dict holding `k`, and then gives the value of the last member named `k`; otherwise it raises |
| Values.DictGet | src/pipeline/fetch.py:68-70 | `d.get(k, default)` returns exactly when `d` is a dict; it gives the value of the last member named `k` when there is one, and the default when `k` is missing |
| Values.Iterate | src/pipeline/fetch.py:77-79 | a `for` loop iterates a list's items, a dict's keys in insertion order, or a string's characters one by one; any other value raises |
| Validate.ValidateAsteroid | src/pipeline/validate.py:39-54 | returns a dict exactly when the record conforms (`ValidateAsteroidAccepts`); that dict's contents are given by `ValidatedFields`, `TisserandPresence`, `ValidatedId` and `CadDataCapped`, and the rejections by the `…Rejected` lemmas |
| Validate.AddTisserand | src/pipeline/validate.py:44-49 | adds `tisserand` only when all three orbital elements are present, and changes nothing else (`AddTisserandGet`, `TisserandKeepsDump`) |
| Validate.Coerce | src/pipeline/validate.py:8-30 | a field's type check never changes an accepted value |
| Validate.ValidateCadData | src/pipeline/validate.py:32-37 | the result is a prefix of the list, at most 1000 long; the list is kept whole when it has at most 1000 entries and cut to exactly 1000 otherwise |
| Validate.ValidateFields | src/pipeline/validate.py:41 | the dump holds only declared field names |
| Validate.ValidateFieldsAccepts | src/pipeline/validate.py:41 | the schema accepts a record exactly when every one of its fields accepts the record's member under its name |
| Validate.ValidateAsteroidAccepts | src/pipeline/validate.py:7-41 | `validate_asteroid` returns a dict exactly when `id`, `name` and `hazardous` are present with the right types, and every optional field is absent, None or of its type within its bounds |
| Validate.SchemaNamesDistinct | src/pipeline/validate.py:7-30 | the seventeen field names are distinct, and none is `tisserand` |
| Validate.SchemaFieldNames | src/pipeline/validate.py:8-30 | the fields are `id`, `name`, `designation`, … `cad_data`, in declaration order |
| Validate.IdentityFieldsOk | src/pipeline/validate.py:8-13 | `id` and `name` are required strings, `designation` an optional string, and `hazardous` a required bool |
| Validate.PhysicalFieldsOk | src/pipeline/validate.py:11-19 | `diameter_km` is optional and in (0, 1000]; `absolute_magnitude` is any optional number; `orbit_class` is an optional string |
| Validate.OrbitFieldsOk | src/pipeline/validate.py:16-18 | eccentricity is in [0, 1), inclination in [0, 180], and semi-major axis is > 0; each is optional |
| Validate.ApproachFieldsOk | src/pipeline/validate.py:22-25 | the approach date is an optional datetime; distance and velocity are optional and > 0; the approach count is an optional integer |
| Validate.RawDataFieldsOk | src/pipeline/validate.py:28-30 | `neows_data` and `sbdb_data` are optional dicts; `cad_data` is an optional list of dicts |
| Validate.ValidateFieldsDump | src/pipeline/validate.py:41 | the dump holds, under each declared name, the input's value when it is present and not None, and nothing otherwise |
| Validate.AddTisserandGet | src/pipeline/validate.py:44-49 | adding `tisserand` changes only that key, and only when all three orbital elements are in the dump |
| Validate.TisserandKeepsDump | src/pipeline/validate.py:44-49 | adding `tisserand` keeps every declared value, adds no other key and adds no None |
| Validate.ValidatedFields | src/pipeline/validate.py:39-51 | an accepted record holds each declared field's input value (with `cad_data` capped); it has no other key but `tisserand` and no None value |
| Validate.SchemaFieldDump | src/pipeline/validate.py:41 | the dump of the asteroid schema holds each declared field's dumped value |
| Validate.OrbitDumped | src/pipeline/validate.py:16-18 | the dump holds the three orbital elements exactly as given |
| Validate.OrbitInRange | src/pipeline/validate.py:16-18 | on an accepted record each orbital element is absent, None or within its bounds |
| Validate.TisserandPresence | src/pipeline/validate.py:44-49 | `tisserand` is present exactly when a, e and i are all present; it is then `calculate_tisserand(a, e, i)`, with a > 0, 0 ≤ e < 1 and 0 ≤ i ≤ 180 |
| Validate.SetFieldAccepts | src/pipeline/validate.py:41 | replacing one field's member keeps an accepted record accepted exactly when that field accepts the new value |
| Validate.OutOfRangeRejected | src/pipeline/validate.py:52-54 | a number outside any float field's bounds makes `validate_asteroid` return None |
| Validate.DiameterOutOfRangeRejected | src/pipeline/validate.py:11 | a diameter outside (0, 1000], such as 1500 km, rejects the record |
| Validate.EccentricityBounds | src/pipeline/validate.py:16 | on an accepted record, eccentricity 0.0 is accepted and 1.0 is rejected |
| Validate.OrbitOutOfRangeRejected | src/pipeline/validate.py:16-18 | an eccentricity outside [0, 1), an inclination outside [0, 180] or a semi-major axis ≤ 0 rejects the record |
| Validate.ApproachOutOfRangeRejected | src/pipeline/validate.py:23-24 | a distance or velocity ≤ 0 rejects the record |
| Validate.MissingRequiredRejected | src/pipeline/validate.py:8-13 | a record missing `id`, `name` or `hazardous`, or holding None there, is rejected |
| Validate.ValidatedId | src/pipeline/validate.py:8 | an accepted record has a string `id` and keeps it unchanged |
| Validate.CadDataCapped | src/pipeline/validate.py:30-37 | an accepted record's `cad_data` is its input list cut to 1000 entries |
| Database.Written | src/pipeline/database.py:53-58 | the input's columns plus `source_data`, which defaults to the whole input (`WrittenGet`, `WrittenColumns`) |
| Database.NewRow | src/pipeline/database.py:61-63 | the inserted row: written values, the clock as `last_updated`, NULL elsewhere (`NewRowColumns`) |
| Database.Overwrite | src/pipeline/database.py:64-66 | the `setattr` loop: written columns replaced, the rest kept (`OverwriteGet`, `OverwriteUnchanged`) |
| Database.Upserted | src/pipeline/database.py:49-69 | the table after `upsert_asteroid`: it raises exactly when `id` is unusable (`UpsertRaises`), and otherwise inserts or updates one row (`UpsertInserts`, `UpsertUpdates`, `UpsertFrame`, `UpsertIdempotent`, `UpsertKeepsValid`); `UpsertAsteroid` is proved equal to it |
| Database.FilterColumns | src/pipeline/database.py:53-54 | the filtered dict keeps only table columns and is never longer than the input |
| Database.FilterColumnsGet | src/pipeline/database.py:53-54 | a key survives filtering exactly when it is a column, and keeps the input's value |
| Database.RowKey | src/pipeline/database.py:60 | the lookup key exists exactly when `data['id']` is present and a string, and it is that string |
| Database.WrittenGet | src/pipeline/database.py:53-58 | the written fields are the input's columns plus `source_data`, which defaults to the whole input |
| Database.WrittenColumns | src/pipeline/database.py:53-58 | only columns are written, and the `id` written is the input's |
| Database.NewRowColumns | src/pipeline/database.py:61-63 | a new row has every column: written values where given, `last_updated` from the clock, NULL elsewhere |
| Database.OverwriteGet | src/pipeline/database.py:64-66 | the `setattr` loop sets each written column and leaves every other column alone |
| Database.AsteroidDatabase.constructor | src/pipeline/database.py:46-47 | a freshly created table is empty |
| Database.AsteroidDatabase.UpsertAsteroid | src/pipeline/database.py:49-69 | the table becomes `Upserted(old table)`, or stays unchanged when the upsert raises; every row stays complete and keyed by its `id` |
| Database.UpsertRaises | src/pipeline/database.py:60 | the upsert raises exactly when `id` is missing or not a string |
| Database.UpsertInserts | src/pipeline/database.py:61-63 | an unknown id adds exactly one row, holding the written columns, `last_updated` set to the time, and NULL elsewhere |
| Database.UpsertUpdates | src/pipeline/database.py:64-66 | a known id keeps the same keys, overwrites the written columns and keeps every other column, including `last_updated` |
| Database.UpsertFrame | src/pipeline/database.py:49-69 | rows under other ids are unchanged, and the table grows by at most one row |
| Database.OverwriteUnchanged | src/pipeline/database.py:64-66 | writing values a row already holds leaves the row unchanged |
| Database.UpsertIdempotent | src/pipeline/database.py:49-69 | upserting the same dict twice gives the table one upsert gives, whatever the second time |
| Database.UpsertedRow | src/pipeline/database.py:49-69 | the stored row holds exactly the table's columns, with its own id |
| Database.UpsertKeepsValid | src/pipeline/database.py:49-69 | every row stays complete and keyed by its own id |
| Database.UpsertStoresSourceData | src/pipeline/database.py:56-58 | an input without `source_data` is stored whole in that column, on insert and on update |
| Fetch.ProcessNeo | src/pipeline/fetch.py:49-63 | the NeoWS record; its fields are given by `ProcessNeoFields`, and an empty approach list raises (`ProcessNeoEmptyApproaches`) |
| Fetch.ProcessSbdb | src/pipeline/fetch.py:65-73 | the SBDB record, with when it raises and each field's value or default given by `ProcessSbdbFields` |
| Fetch.FeedSpec | src/pipeline/fetch.py:75-87 | the feed's flattening; `ProcessFeedData` is proved equal to it, and `EntriesOfObject`, `FlatMapAppend`, `FeedCount` and `FeedWithoutObjects` give its entries, order, length and empty cases |
| Fetch.ProcessData | src/pipeline/fetch.py:40-47 | dispatches on the source type; an unknown type gives None (`UnknownSourceType`) |
| Fetch.FetchAndProcess | src/pipeline/fetch.py:30-38 | every exception becomes None, and otherwise the normaliser's result is returned (`FetchFailuresBecomeNone`, `NeoWithoutApproachesIsNone`) |
| Fetch.PyFloat | src/pipeline/fetch.py:56-62 | `float(v)` keeps numbers, gives 1.0/0.0 for booleans, returns the parsed value of a string exactly when it parses, and raises for a string that does not parse and for anything else |
| Fetch.First | src/pipeline/fetch.py:50 | `[0]` of a list returns exactly when the list is non-empty, and then gives its first item |
| Fetch.NeoIdentityFields | src/pipeline/fetch.py:52-55 | `id`, `name`, `diameter_km` and `hazardous` come in order; `id` is `str(response['id'])`, `name` is `response['name']`, the diameter is the maximum estimate in km and `hazardous` is `response['is_potentially_hazardous_asteroid']` |
| Fetch.NeoOrbitFields | src/pipeline/fetch.py:56-59 | the four orbital values come in order, each `float(response['orbital_data'][...])` of its own key |
| Fetch.NeoApproachFields | src/pipeline/fetch.py:60-62 | the approach date, distance and velocity come in order from the given approach entry |
| Fetch.ProcessNeoFields | src/pipeline/fetch.py:49-63 | the record has the eleven keys in order; `id`, `name`, diameter, `hazardous` and the four orbital floats are read from the response as above, and the approach fields come from the FIRST entry of `close_approach_data` |
| Fetch.ProcessNeoEmptyApproaches | src/pipeline/fetch.py:50 | an empty `close_approach_data` list makes the normaliser raise |
| Fetch.ProcessSbdbFields | src/pipeline/fetch.py:65-73 | a record is produced exactly when the response, `object` and `orbit_class` are dicts or missing; a present `spkid`, `fullname` or `description` is returned and a missing one defaults to `''`; the raw response goes in `source_data` and the record is tagged `'sbdb'` |
| Fetch.ObjectEntries | src/pipeline/fetch.py:79-86 | the innermost loop gives the flattening of one object's approaches, or raises as that does |
| Fetch.DateEntries | src/pipeline/fetch.py:78-86 | the middle loop gives the flattening of one date's objects |
| Fetch.ProcessFeedData | src/pipeline/fetch.py:75-87 | the whole triple loop gives `FeedSpec`, the flattening over dates, objects and approaches |
| Fetch.FlatMapRaises | src/pipeline/fetch.py:75-87 | a raise on any element makes the whole feed raise |
| Fetch.FlatMapAppend | src/pipeline/fetch.py:75-87 | flattening a concatenation gives the two flattenings concatenated, so output order follows input order |
| Fetch.FlatMapLength | src/pipeline/fetch.py:75-87 | the output length is the sum of the per-element lengths |
| Fetch.ApproachEntryFields | src/pipeline/fetch.py:80-86 | each feed entry holds the object's `id` and `name` with the approach's date, distance and velocity |
| Fetch.EntriesOfObject | src/pipeline/fetch.py:79-86 | one object yields exactly one entry per approach, in order |
| Fetch.ObjectCount | src/pipeline/fetch.py:79-86 | an object contributes as many entries as it lists approaches |
| Fetch.DateCount | src/pipeline/fetch.py:78-86 | a date contributes the sum of its objects' approach counts |
| Fetch.FeedCount | src/pipeline/fetch.py:75-87 | the feed's length is the total number of approaches over all dates |
| Fetch.FeedWithoutObjects | src/pipeline/fetch.py:77 | a feed dict without `near_earth_objects` gives `[]`, and a response that is not a dict raises |
| Fetch.UnknownSourceType | src/pipeline/fetch.py:40-47 | a source type other than `neo`, `sbdb` or `feed` gives None |
| Fetch.FetchFailuresBecomeNone | src/pipeline/fetch.py:30-38 | a failed request or a raising normaliser gives None; otherwise the normaliser's result is returned |
| Fetch.NeoWithoutApproachesIsNone | src/pipeline/fetch.py:30-50 | a NeoWS object without close approaches is fetched as None |
| Update.ObjectStep | src/pipeline/update.py:28-35 | one object with its handler: when it counts (`ObjectStepSucceeds`), and that a failure on a dict is swallowed (`FailureIsolated`) |
| Update.Processed | src/pipeline/update.py:23-35 | the first `k` objects handled in order; escapes are final (`EscapeIsFinal`), the counts are bounded (`ProgressBounds`), and dict objects never escape (`AllDictsNeverEscape`) |
| Update.RunUpdateSpec | src/pipeline/update.py:13-45 | what `run_update` returns and the table it leaves; `RunUpdate` is proved equal to it, and `EmptyCatalogFails`, `RunAsWrittenStopsAfterFirstBatch` and `RunCorrectedCompletes` state its outcomes |
| Update.BatchesPartition | src/pipeline/update.py:24-25 | the batches concatenate back to the catalogue, and each holds 1 to 20 objects; `RunUpdate` handles them in that order, one round per batch |
| Update.BatchAt | src/pipeline/update.py:24-25 | batch `b` is `neos[20b : 20b + 20]`, the slice `RunUpdate`'s round `b` hands to `ProcessBatch` |
| Update.Wired | src/pipeline/update.py:31 | the validator the updater uses is `validate_asteroid` |
| Update.DataUpdater.HandleObject | src/pipeline/update.py:28-35 | handling the next object moves the table, the count and the escape flag to those of one more object handled |
| Update.DataUpdater.ProcessBatch | src/pipeline/update.py:28-35 | handling a batch gives the state after that batch's last object |
| Update.DataUpdater.RunUpdate | src/pipeline/update.py:13-45 | the result and the final table are those of `RunUpdateSpec` on the starting table |
| Update.EscapeIsFinal | src/pipeline/update.py:43-45 | once an exception escapes, no later object changes anything |
| Update.ProgressBounds | src/pipeline/update.py:23-33 | `success_count` ≤ objects handled ≤ objects reached, and a run with no escape handles every object |
| Update.ObjectStepSucceeds | src/pipeline/update.py:29-33 | an object counts exactly when completion returns a truthy dict, validation returns a non-empty dict, and upserting that dict returns; the table is then the upsert's result |
| Update.FailureIsolated | src/pipeline/update.py:34-35 | a failure on a dict-shaped object is swallowed: the table is unchanged and the object not counted |
| Update.EmptyCatalogFails | src/pipeline/update.py:17-20 | a raising, None or empty catalogue returns False with the table untouched |
| Update.AllDictsNeverEscape | src/pipeline/update.py:34-35 | when every object is a dict, no exception escapes the per-object handler |
| Update.RunAsWrittenStopsAfterFirstBatch | src/pipeline/update.py:38 | with the pause raising, every non-empty run returns False after at most 20 objects |
| Update.RunCorrectedCompletes | src/pipeline/update.py:24-41 | with a working pause, every object is handled; the run returns True exactly when nothing escaped, which is always so when every object is a dict |
| Preprocess.ThreatScore | src/pipeline/preprocess.py:42 | the finite quotient when all values are present (`ThreatScoreDefined`), NaN when one is NULL (`MissingValueGivesNaN`), monotone (`ThreatScoreMonotone`) |
| Preprocess.PalermoScale | src/pipeline/preprocess.py:45 | `log10` of the clipped score, never -inf (`PalermoClamp`) |
| Preprocess.RowFeatures | src/pipeline/preprocess.py:39-52 | one row's score, Palermo value and Torino bucket (`MissingValueGivesNaN`, `TorinoCountsEdges`, `TorinoRange`) |
| Preprocess.PreprocessFromDb | src/pipeline/preprocess.py:15-37 | None for an empty result (`EmptyResultIsNone`) or a missing column (`AsWrittenAlwaysNone`); otherwise one feature row per table row (`CorrectedScoresEveryRow`) |
| Preprocess.PalermoArgument | src/pipeline/preprocess.py:45 | clipping keeps NaN as NaN and raises every other value to at least 1e-6 |
| Preprocess.TorinoBucket | src/pipeline/preprocess.py:48-50 | a bucket, when there is one, is between 0 and 4 |
| Preprocess.ThreatScoreDefined | src/pipeline/preprocess.py:42 | with a non-negative distance the denominator is positive, and the score is the finite quotient |
| Preprocess.MissingValueGivesNaN | src/pipeline/preprocess.py:42-50 | a NULL input gives a NaN score, a NaN Palermo value and no Torino bucket |
| Preprocess.ThreatScoreMonotone | src/pipeline/preprocess.py:42 | the score grows with diameter and velocity, and shrinks as distance grows |
| Preprocess.PalermoClamp | src/pipeline/preprocess.py:45 | scores of at least 1e-6 are kept, and smaller ones and -inf become 1e-6; for any `log10`, the Palermo value is `log10` of the score or of 1e-6, +inf for +inf, never -inf, and NaN exactly for a NaN score |
| Preprocess.TorinoCountsEdges | src/pipeline/preprocess.py:48-50 | a finite score's bucket is the number of bin edges strictly below it (bins are closed on the right) |
| Preprocess.TorinoMonotone | src/pipeline/preprocess.py:48-50 | a larger score never gets a lower bucket |
| Preprocess.TorinoRange | src/pipeline/preprocess.py:48-50 | a bucket exists exactly when the score is not NaN or -inf, and it is in 0..4 |
| Preprocess.EmptyResultIsNone | src/pipeline/preprocess.py:24-25 | an empty query result gives None |
| Preprocess.AsWrittenAlwaysNone | src/pipeline/preprocess.py:42 | as written, every table gives None |
| Preprocess.CorrectedScoresEveryRow | src/pipeline/preprocess.py:39-52 | reading the table's own columns, a non-empty table gives one feature row per row, scored from that row's values |

## Left out

- Pydantic's lax coercion: for a str, bool, float, int, dict or list field, the model accepts
  only values that already have the field's type. In Python, `"1.5"` or `1` are converted and
  accepted for a float field.
- Validate.Coerce: every string passes as a `datetime` for `next_approach_date`, where pydantic
  rejects a string that is not a date (so `validate_asteroid` returns None). The dump keeps the
  text where Python holds a `datetime` object. The model therefore does not show that
  `upsert_asteroid` stores that `datetime` inside the JSON `source_data` column
  (database.py:58), which needs it to be JSON-encodable. Pydantic's lax mode also accepts an
  int or float for a `datetime` field and reads it as a Unix timestamp; the model rejects a
  number there, so for such a record `validate_asteroid` returns a dict in Python and None
  in the model.
- Floating point: finite floats are exact reals. Rounding, overflow to infinity and the sign
  of zero are not modelled. `calculate_tisserand` (cosine and square root) and `np.log10` are
  uninterpreted function parameters.
- Python's `float(s)` on a string and `str(v)` on a non-string are the parameters
  `Conversions.parseFloat` and `Conversions.format`, not Python's parsers.
- The HTTP request, timeout, `raise_for_status` and JSON decoding are one input that either
  returns a decoded value or raises. URL building, `datetime.now()`, the API key and the
  config file are not modelled.
- `fetch_all_neos`, `fetch_neo_complete` and `fetcher.db` are inputs to `RunUpdate`, since
  `NASADataFetcher` does not define them. The model does not say which of them exist.
- Python dicts with duplicate keys cannot arise from `json.loads`. The model's ordered member
  lists allow them, and iterating over them visits every duplicate.
- The pause `time.sleep(5 or 1)` is modelled only as whether it raises (`pacingRaises`). The
  length of the pause and the `DEMO_KEY` test are not modelled.
- Logging, the progress message, `full_refresh` (unused by the source), `schedule_updates`,
  APScheduler and the argparse entry point are not modelled.
- SQLAlchemy sessions, commit and close are not modelled: each upsert is atomic in the model.
  Type conversion on write is not modelled either. `Database.RowKey` treats an `id` that is
  not a string as raising, where SQLAlchemy might convert it.
- Database.NewRow: an inserted dict holding `last_updated: None` stores NULL. SQLAlchemy
  may instead leave the None out of the INSERT and apply the column default
  `datetime.utcnow` (database.py:32). No record the pipeline builds has a `last_updated` key.
- The `last_updated` clock is an input (`Services.clock`) rather than `datetime.utcnow()`.
- The SQL query's one-year filter is not modelled: `PreprocessFromDb` takes the rows the
  query returned.
- `_cluster_orbits` (StandardScaler and KMeans, which raises on fewer than 5 rows) and
  `_save_data` (parquet or CSV) become one input, `finish`, which says whether both
  succeed. The cluster labels are not modelled.
- `init_db` and the SQLAlchemy table declaration are reduced to the column set
  `Database.Columns`. The scripts under `scripts/` are not part of this model.

## Findings

| source | as written | input that shows it | evidently intended | confidence | as-written member | corrected member |
|---|---|---|---|---|---|---|
| src/pipeline/update.py:38 | `time` is imported from `datetime` at line 6, so `time.sleep` raises `AttributeError`. The outer handler then returns False after the first batch. | any non-empty catalogue, e.g. 25 objects: only the first 20 are handled and the run returns False | pause with `time.sleep` from the `time` module, then go on to the next batch | not executed | Update.RunAsWrittenStopsAfterFirstBatch | Update.RunCorrectedCompletes |
| src/pipeline/preprocess.py:42 | the threat score reads `next_approach_velocity` and `next_approach_distance_km`, which the `asteroids` table does not have. The resulting KeyError makes `preprocess_from_db` return None. | any non-empty table | read the table's `velocity_km_s` and `miss_distance_km` columns | not executed | Preprocess.AsWrittenAlwaysNone | Preprocess.CorrectedScoresEveryRow |
