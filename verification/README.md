# Parking monitoring pipeline — a Dafny model

This is a model of the event pipeline behind the parking-monitoring demo.

Sensors emit parking events: a spot id `A1`..`A10`, a status `occupied`/`vacant` and a UTC timestamp `YYYY-MM-DDTHH:MM:SSZ`. The events travel through a Kafka topic to an ingestion Lambda. The Lambda writes each event to S3 under a Hive-style partition directory (`year=…/month=…/day=…/hour=…`). A Glue catalog table is laid over that prefix. Athena queries the events, and several scripts run those queries by polling the statement until it ends.

The model has four parts:

- **The ingestion handler** (`ingestion.dfy`, with `timestamp.dfy`, `strings.dfy`, `json.dfy`):
  - the fixed-width timestamp format and its parser;
  - the partition path and the object key;
  - the per-record put loop over an object store whose failing puts are scripted.

  Proved:
  - parse/format round trips;
  - keys identify records;
  - replaying a batch changes nothing;
  - a failure leaves exactly the earlier records stored.
- **The simulated flow** (`simulated_flow.dfy`):
  - a FIFO buffer class standing in for the topic;
  - the enrichment loop, which takes the processing time from a clock given as input;
  - the grouping loop into first-seen partition buckets;
  - the stable descending sort and the top five.
- **The query runner** (`query_runner.dfy`): one poll loop over a finite trace of what the query service answers. It is parameterised by:
  - the delay between polls;
  - where the header comes from;
  - the value shown for NULL;
  - whether missing results are tolerated.

  Each script's variant is an instance of it:
  - `athena_tester.dfy`;
  - `complete_flow_test.dfy`;
  - `glue_setup.dfy`;
  - `analytics.dfy`;
  - `complete_flow_demo.dfy`.
- **The catalog setup** (`glue_setup.dfy`): a catalog class holding databases and tables, the fixed table definition, and the setup order.

Shared entities:

- `parking_events.dfy` holds the event and its generator.
- `config.dfy` holds the deployment names.
- `wrappers.dfy` holds `Option`/`Result`.

Where the environment is involved, the model takes it as input:

- the clock is a `DateTime` argument; where the source reads it several times, it is a sequence of readings, one per call;
- random choices are arguments;
- the query service is an `Engine` value:
  - the outcome of starting the statement;
  - the sequence of poll answers;
  - the fetched results;
- the object store's failures are a script of booleans.

Every source poll loop is `while True`. The runner therefore requires a started statement's trace to contain an answer that ends the loop.

Where the scripts differ from one another or from what their names suggest, the model follows the code:

- The simulated Lambda takes `year`/`month`/`day`/`hour` from the clock at processing time, not from the event's timestamp (`demo/simulated_flow_demo.py:69-76`). The real handler takes them from the event's timestamp (`lambda/ingestion/index.py:34-35`).
- The simulated producer's offset is the buffer length before the append. After the consumer drains the buffer, offsets restart at 0.
- The simulated grouping writes month, day and hour unpadded (`demo/simulated_flow_demo.py:89`), the handler zero-padded (`lambda/ingestion/index.py:35`), so the two name the same directory only when all three have two digits (`SimulatedFlow.LabelAgainstPath`).
- The handler re-raises the first failure, including a failed put, so the rest of the batch is not stored and nothing is retried (`lambda/ingestion/index.py:58-60`). Records already put stay in the bucket.

## Model

| member | source | states |
|---|---|---|
| Timestamp.Format | demo/simulated_flow_demo.py:29 | `strftime("%Y-%m-%dT%H:%M:%SZ")` of a valid date-time has the fixed 20-character shape: 4 year digits, then `-MM-DDTHH:MM:SSZ` |
| Timestamp.FormatSlices | demo/simulated_flow_demo.py:29 | each field of a formatted date-time sits at its fixed position, zero-padded, between the fixed separators |
| Timestamp.Parse | lambda/ingestion/index.py:34 | a string in the fixed-width form accepted by `strptime` with the fixed format denotes a valid date-time and is exactly that date-time's formatting; no other string is accepted by the model |
| Timestamp.ParseFormat | lambda/ingestion/index.py:34 | every valid date-time, once formatted, parses back to itself |
| Timestamp.FormatFields | lambda/ingestion/index.py:34 | a string of the right shape whose fields form a valid date-time is the formatting of those fields |
| Timestamp.DaysInMonth | lambda/ingestion/index.py:34 | months have 28 to 31 days, and 29 exactly for February of a Gregorian leap year |
| Timestamp.PathAfterYear | lambda/ingestion/index.py:35 | after the year, the path has a fixed length of 24 and starts with the separator, with month, day and hour two-digit zero-padded at fixed offsets |
| Timestamp.PartitionPath | lambda/ingestion/index.py:35 | `year=` and the unpadded year, then month, day and hour zero-padded to two digits at fixed offsets from the end; two instants share the path exactly when they share the hour (`PartitionPathSameHour`) |
| Timestamp.PartitionPathSameHour | lambda/ingestion/index.py:35 | two timestamps give the same partition path if and only if they fall in the same hour of the same day |
| Timestamp.PartitionPathExample | lambda/ingestion/index.py:20-35 | `2024-03-20T10:00:00Z` parses to 2024-03-20 10:00:00 and is stored under `year=2024/month=03/day=20/hour=10` |
| Timestamp.FormatExample | test/test_complete_flow.py:18 | 2024-03-20 10:00:00 formats as `2024-03-20T10:00:00Z` |
| Timestamp.SplitAtSameLength | lambda/ingestion/index.py:35 | two concatenations with equal tails of equal length have equal heads and tails (used to read fields back out of a path) |
| Strings.NatToString | lambda/ingestion/index.py:35 | `str(n)` is a non-empty digit string, one character long exactly when n < 10 |
| Strings.NatToStringValue | lambda/ingestion/index.py:35 | `str(n)` reads back as n |
| Strings.NatToStringInjective | lambda/ingestion/index.py:38 | distinct numbers print differently |
| Strings.Pad2OfDigits | lambda/ingestion/index.py:35 | a two-digit string denotes a number below 100 whose `:02d` is that string, so fixed-width fields parse and reformat to themselves |
| Strings.Pad4OfDigits | demo/simulated_flow_demo.py:29 | a four-digit string denotes a year below 10000 whose `%Y` is that string |
| Strings.LessIrreflexive | demo/simulated_flow_demo.py:105 | Python's string `<` is irreflexive |
| Strings.LessTransitive | demo/simulated_flow_demo.py:105 | Python's string `<` is transitive |
| Strings.LessTrichotomy | demo/simulated_flow_demo.py:105 | any two strings are equal or ordered one way by `<` |
| Strings.Lower | demo/complete_flow_demo.py:123 | `str.lower()` on the ASCII-only state names it is applied to (`FAILED`, `CANCELLED`) keeps the length, maps upper-case ASCII letters to lower-case and leaves other ASCII characters alone |
| Json.Dumps | lambda/ingestion/index.py:44 | `json.dumps(o)` is JSON, and `json.loads` of it gives back o |
| Json.Loads | lambda/ingestion/index.py:30 | only JSON decodes; JSON that is not an object decodes but is not a message |
| Json.LoadsDumps | lambda/ingestion/index.py:30-44 | re-encoding a decoded object gives a text that decodes to the same object |
| Json.LayoutNotKept | lambda/ingestion/index.py:30-44 | re-encoding need not give back the text that was decoded: layout (whitespace, key order, escapes) is lost |
| ParkingEvents.ToObject | demo/simulated_flow_demo.py:26-30 | an event is the object with exactly the keys `spot_id`, `status`, `timestamp` |
| ParkingEvents.GenerateParkingEvent | demo/simulated_flow_demo.py:24-30 | a generated event has spot id `A1`..`A10` carrying the drawn number, the chosen status, and a timestamp that parses back to the clock reading |
| Ingestion.ObjectName | lambda/ingestion/index.py:38 | the object name starts with the topic and a `-` and ends in `.json`; it determines topic, partition and offset (`ObjectNameInjective`) |
| Ingestion.S3Key | lambda/ingestion/index.py:38 | the key starts with `parking-data/` and ends with `/` and the object name; keys coincide exactly when hour and record coordinates do (`S3KeyInjective`) |
| Ingestion.S3KeyInjective | lambda/ingestion/index.py:35-38 | two records' keys coincide if and only if their timestamps share the hour and topic, partition and offset agree, so a redelivered record overwrites its own object and no other |
| Ingestion.AfterYearInjective | lambda/ingestion/index.py:35-38 | the part of the key after the year determines month, day, hour and the object name |
| Ingestion.ObjectNameInjective | lambda/ingestion/index.py:38 | `<topic>-<partition>-<offset>.json` determines topic, partition and offset |
| Ingestion.MessageTimestamp | lambda/ingestion/index.py:34 | the message's timestamp is read exactly when the key exists, holds a string and that string parses; otherwise KeyError, or a parse error |
| Ingestion.Prepare | lambda/ingestion/index.py:30-46 | a record is prepared if and only if its value decodes to an object whose timestamp parses; the key is then built from that timestamp and the record's topic, partition and offset, and the body is `json.dumps` of the message, which decodes to the same message; otherwise the failure is the decoding's, or the timestamp's (KeyError or parse error) |
| Ingestion.Requests | lambda/ingestion/index.py:28-46 | one put per record, in record order |
| Ingestion.RequestsSnoc | lambda/ingestion/index.py:28-46 | the puts for one more record are the earlier puts followed by that record's put |
| Ingestion.Apply | lambda/ingestion/index.py:41-46 | puts never remove a key, and the last put's key holds its body; which key holds what after a sequence is `ApplyLastWrite` and `ApplyUntouched` |
| Ingestion.ApplyOverrides | lambda/ingestion/index.py:41-46 | applying puts to a store only overwrites: earlier contents shadowed by later ones compose |
| Ingestion.ReplayIdempotent | lambda/ingestion/index.py:38-46 | replaying the same batch of puts leaves the store as one run left it |
| Ingestion.ApplyLastWrite | lambda/ingestion/index.py:41-46 | a key holds the body of the last put to it |
| Ingestion.ApplyUntouched | lambda/ingestion/index.py:41-46 | keys no put names keep their contents, and absent ones stay absent |
| Ingestion.StoredBodies | lambda/ingestion/index.py:28-46 | after a batch whose records have distinct coordinates, each record's key holds `json.dumps` of its own message, a text decoding to that message |
| Ingestion.IsoFormat | lambda/ingestion/index.py:54 | 19 characters, `YYYY-MM-DDTHH:MM:SS`, which with a `Z` appended parses back to the reading |
| Ingestion.SuccessResponse | lambda/ingestion/index.py:50-56 | status 200, and a body decoding to "Successfully processed N records" and the ISO time of the call |
| Ingestion.ObjectStore.Put | lambda/ingestion/index.py:41-46 | a put stores the body under the key unless the store's script makes it raise, and consumes one scripted outcome |
| Ingestion.Run | lambda/ingestion/index.py:28-60 | the record-by-record reference run: a success reports the record count; a failure names a record at or after the starting one |
| Ingestion.Handler | lambda/ingestion/index.py:15-60 | the loop's result, the store's new contents and the remaining fault script are those of the record-by-record reference run `Run` from the first record, whose properties follow |
| Ingestion.HandlerOutcome | lambda/ingestion/index.py:15-60 | success exactly when every record prepares and every put succeeds; then all puts are applied in order and the response reports the count. Otherwise the error names the first failing record; the records before it stay stored, later ones are not attempted, and nothing is retried |
| Ingestion.RunSucceedsIff | lambda/ingestion/index.py:28-56 | from any point reached without failure, the run succeeds if and only if every record prepares and no put faults |
| Ingestion.RunSuccess | lambda/ingestion/index.py:28-56 | a successful run has applied every record's put in order, consumed one fault-script entry per record and reports the record count |
| Ingestion.RunFailure | lambda/ingestion/index.py:28-60 | a failed run stops at the first failing record: a decode or timestamp failure stores nothing for it, a faulting put consumes its script entry, and only the earlier records' puts are applied |
| SimulatedFlow.KafkaBuffer.constructor | demo/simulated_flow_demo.py:17 | the buffer starts empty |
| SimulatedFlow.KafkaBuffer.Produce | demo/simulated_flow_demo.py:32-45 | the event is appended at the tail, the call reports success, and the offset is the length before the append |
| SimulatedFlow.KafkaBuffer.Consume | demo/simulated_flow_demo.py:47-59 | returns exactly the buffered events in FIFO order and leaves the buffer empty |
| SimulatedFlow.KafkaBuffer.ProduceAll | demo/simulated_flow_demo.py:128-130 | producing a list appends it in order, the i-th event at offset old length + i |
| SimulatedFlow.ProduceFromEmpty | demo/simulated_flow_demo.py:37-41 | from a fresh buffer, successive offsets are 0, 1, 2, … |
| SimulatedFlow.Enrich | demo/simulated_flow_demo.py:69-76 | the enriched event keeps every original field; `processed_at` parses back to the clock reading; year, month, day and hour are that reading's |
| SimulatedFlow.EnrichAsWritten | demo/simulated_flow_demo.py:69-76 | as written, `processed_at`, year, month, day and hour each come from a separate clock reading |
| SimulatedFlow.EnrichAsWrittenSameHour | demo/simulated_flow_demo.py:69-76 | when the five readings agree, the code as written and the single-reading form coincide |
| SimulatedFlow.EnrichAcrossNewYear | demo/simulated_flow_demo.py:72-75 | readings one second apart across New Year give the fields of 1 January of the old year, matching neither reading |
| SimulatedFlow.SimulateLambdaProcessing | demo/simulated_flow_demo.py:61-80 | one enriched event per event, in order, each keeping its original event and enriched as written from its own five clock readings; where those readings are one instant, the result is the single-reading enrichment |
| SimulatedFlow.EnrichedGrows | demo/simulated_flow_demo.py:66-79 | one more iteration keeps every enriched event equal to the as-written enrichment of its readings |
| SimulatedFlow.UnpaddedTwoDigits | demo/simulated_flow_demo.py:89 | for a two-digit number, `str(n)` equals `f"{n:02d}"` |
| SimulatedFlow.LabelUnpadded | demo/simulated_flow_demo.py:89 | the simulated partition label writes every field unpadded, so it equals the zero-padded form of the same fields exactly when month, day and hour have two digits |
| SimulatedFlow.LabelAgainstPath | demo/simulated_flow_demo.py:89 | the simulated directory of an event processed at t is the handler's partition path of t exactly when month, day and hour of t have two digits |
| SimulatedFlow.FirstSeenLabels | demo/simulated_flow_demo.py:87-92 | `FirstSeen`, the dict's key list, holds exactly the labels some event carries, each once |
| SimulatedFlow.FirstSeenWitness | demo/simulated_flow_demo.py:87-92 | every listed label is the label of some event |
| SimulatedFlow.FirstSeenComplete | demo/simulated_flow_demo.py:87-92 | every event's label is listed |
| SimulatedFlow.FirstSeenDistinct | demo/simulated_flow_demo.py:90-91 | no label is listed twice, since a key is added only when absent |
| SimulatedFlow.Bucket | demo/simulated_flow_demo.py:87-92 | a bucket holds only events of its label, drawn from the input |
| SimulatedFlow.SimulateS3Storage | demo/simulated_flow_demo.py:82-92 | the dict's keys are the labels in first-seen order, and each bucket is its label's events in input order |
| SimulatedFlow.GroupIntoExisting | demo/simulated_flow_demo.py:88-92 | an iteration for a label already in the dict keeps the dict equal to the grouping of the events seen so far |
| SimulatedFlow.GroupIntoNew | demo/simulated_flow_demo.py:88-92 | an iteration for a new label keeps the dict equal to the grouping of the events seen so far |
| SimulatedFlow.AppendToBucket | demo/simulated_flow_demo.py:92 | appending an event with a known label leaves the key order unchanged and extends that label's list |
| SimulatedFlow.OpenBucket | demo/simulated_flow_demo.py:90-92 | an event with a new label adds the label last, with a list holding just that event |
| SimulatedFlow.BucketsAppend | demo/simulated_flow_demo.py:92 | after the append every list still equals its label's bucket |
| SimulatedFlow.BucketEmptyIfUnseen | demo/simulated_flow_demo.py:87-92 | a label never seen has an empty bucket |
| SimulatedFlow.EventInOwnBucket | demo/simulated_flow_demo.py:87-92 | every event's label is listed, and the event is in that label's bucket |
| SimulatedFlow.BucketSizesSnoc | demo/simulated_flow_demo.py:88-92 | one more event adds one to the total bucket size once for each time its label is listed |
| SimulatedFlow.OccurrencesDistinct | demo/simulated_flow_demo.py:90-91 | in a list without repeats, a label occurs once if present and otherwise not at all |
| SimulatedFlow.BucketSizesTotal | demo/simulated_flow_demo.py:87-92 | the bucket sizes sum to the number of events, so every event is in exactly one bucket |
| SimulatedFlow.AtLeastTransitive | demo/simulated_flow_demo.py:105 | "not less than" on timestamps is transitive |
| SimulatedFlow.Insert | demo/simulated_flow_demo.py:105 | inserting into a descending list keeps it descending and adds exactly the one event |
| SimulatedFlow.ConsSorted | demo/simulated_flow_demo.py:105 | a head not below any element of a descending tail gives a descending list |
| SimulatedFlow.SortDesc | demo/simulated_flow_demo.py:105 | `sorted(..., reverse=True)` by timestamp is descending and a permutation of the input |
| SimulatedFlow.WithKeyInsert | demo/simulated_flow_demo.py:105 | insertion places an event ahead of the events with an equal timestamp that come after it in the input |
| SimulatedFlow.SortDescStable | demo/simulated_flow_demo.py:105 | events with equal timestamps keep their input order |
| SimulatedFlow.SimulateAthenaQuery | demo/simulated_flow_demo.py:100-113 | shows min(5, n) events, a prefix of the descending sort, none older than an event left out |
| SimulatedFlow.RunDemo | demo/simulated_flow_demo.py:115-144 | after produce, consume, process, store and query, the buffer is empty; event i was produced at offset old length + i; the consumer saw the old contents then the new events; each is enriched as written from its own five clock readings (the single-reading enrichment where they are one instant), grouped and queried as above |
| QueryRunner.Describe | test/test_athena_queries.py:60-61 | `str(e)`: a service exception gives its own message, a KeyError the missing key in quotes |
| QueryRunner.FirstExit | test/test_athena_queries.py:33-38 | the loop stops at the first answer that is a terminal state or an exception, and at no earlier one |
| QueryRunner.AwaitTerminal | test/test_athena_queries.py:33-40 | the loop observes states until the first exit and sleeps the delay after each non-terminal observation |
| QueryRunner.Values | test/test_athena_queries.py:52 | a row's values keep the field order, with the default for fields without `VarCharValue` |
| QueryRunner.DataRows | test/test_athena_queries.py:51 | the data rows are `Rows[1:]`: the header row is skipped, and an empty list gives none |
| QueryRunner.CellHeader | test/test_complete_flow.py:185 | the header subscript succeeds exactly when every cell carries the field, and gives the fields in order; otherwise it raises KeyError on that field |
| QueryRunner.Header | visualize/parking_analytics.py:34 | the column names come from the first row's cells, raising on an empty list, or from the metadata labels when that is the source |
| QueryRunner.Extract | test/test_complete_flow.py:179-193 | a table needs `ResultSet` and `Rows`, has the header and `Rows[1:]`; "no results" happens exactly when tolerated and one of them is absent; when `ResultSet` is there and not excused, a header error raises it, a missing `Rows` raises KeyError, and otherwise the table is built; a missing `ResultSet` not tolerated raises KeyError |
| QueryRunner.Expected | test/test_complete_flow.py:149-200 | a start exception propagates; a poll exception propagates; FAILED/CANCELLED reports the state with the engine's reason or "Unknown error"; SUCCEEDED ends the wait, or fetches (a fetch exception propagates) and extracts |
| QueryRunner.RunQuery | test/test_athena_queries.py:18-62 | one run gives the outcome above, and sleeps the delay once per non-terminal observation |
| QueryRunner.LabelHeaderRaises | test/test_athena_queries.py:47 | taking column names from `col['Label']` of row cells, which carry no `Label`, raises KeyError on `Label` |
| QueryRunner.ExampleTrace | test/test_complete_flow.py:114-130 | QUEUED, RUNNING, SUCCEEDED: the loop stops at the third answer and extracts the results |
| AthenaTester.AthenaQueryTester.constructor | test/test_athena_queries.py:12-16 | the tester keeps the database, workgroup and output location it is given (defaults `GLUE_DATABASE`, `ATHENA_WORKGROUP`, `s3://{S3_BUCKET}/athena-results/`) |
| AthenaTester.AthenaQueryTester.Request | test/test_athena_queries.py:22-27 | the statement is submitted with the tester's database, output location and workgroup |
| AthenaTester.AthenaQueryTester.RunQuery | test/test_athena_queries.py:18-62 | as written: true exactly when the run produces a table, which needs every header cell to carry `Label`; sleeps 1 s per non-terminal poll |
| AthenaTester.AthenaQueryTester.RunQueryIntended | test/test_athena_queries.py:18-62 | with metadata labels: true exactly when the statement succeeded and its results are complete; failures and every exception give false; sleeps 1 s per non-terminal poll |
| AthenaTester.IntendedSucceeds | test/test_athena_queries.py:42-58 | the metadata-labelled run yields a table if and only if the statement succeeded and its results carry rows and metadata |
| AthenaTester.AsWrittenRejectsSuccess | test/test_athena_queries.py:47 | as written, a succeeded statement whose header row has a cell reports failure, raising KeyError on `Label` |
| AthenaTester.TestQueries | test/test_athena_queries.py:64-114 | each of the three fixed SQL texts (hourly occupancy, peak hours, day of week) runs once through `run_query` as written, in list order, numbered from 1, with the default tester's settings; each report says whether that run produced a table |
| CompleteFlowTest.LambdaPayload | test/test_complete_flow.py:27-36 | the test event is one record: topic `parking-events`, partition 0, offset 0, value decoding to the event |
| CompleteFlowTest.PayloadAccepted | test/test_complete_flow.py:27-36 | the handler accepts the test payload and prepares the put of the sent text under `parking-data/<event hour>/parking-events-0-0.json` (whether the put then succeeds is up to the store); as the payload was itself written by `json.dumps`, the body is the text sent |
| CompleteFlowTest.FirstRecordKey | lambda/ingestion/index.py:38 | the key of record 0/0 of the topic is `parking-data/<path>/parking-events-0-0.json` |
| CompleteFlowTest.InspectedKeys | test/test_complete_flow.py:57-60 | at most the first five listed keys, in listing order, and none without `Contents` |
| CompleteFlowTest.RepairTablePartitions | test/test_complete_flow.py:90-133 | the repair runs in workgroup `primary` against the catalog database, waits 2 s per non-terminal poll and prints one closing line: the reason or "Unknown error" for FAILED, a fixed line for CANCELLED or SUCCEEDED, the message of an exception |
| CompleteFlowTest.RunAthenaQuery | test/test_complete_flow.py:135-204 | the fixed SELECT of the five newest events is submitted in workgroup `primary`; the query waits 2 s per non-terminal poll and tabulates with the header from `VarCharValue` and `NULL` for missing values |
| CompleteFlowTest.QueryResultsShown | test/test_complete_flow.py:183-193 | no `ResultSet`/`Rows`: no results, no error; empty `Rows` or a header cell without a value: an error; otherwise header and `Rows[1:]` with `NULL` |
| GlueSetup.TableColumnsMatchEvents | glue/setup_catalog.py:47-51 | the table's columns are three strings named exactly like the event's fields |
| GlueSetup.SerdePathsFollowColumns | glue/setup_catalog.py:47-59 | the serde's `paths` list the columns in order |
| GlueSetup.LocationIsKeyPrefix | glue/setup_catalog.py:52 | the table location is the bucket's ingestion prefix |
| GlueSetup.PartitionKeyNames | glue/setup_catalog.py:64-69 | partition keys year, month, day, hour, in that order, all strings |
| GlueSetup.StoredObjectsUnderTable | glue/setup_catalog.py:52 | every object the handler writes lies in a partition directory under the table location |
| GlueSetup.PartitionPathSpellsKeys | glue/setup_catalog.py:64-69 | the handler's partition directory names the table's partition keys in order |
| GlueSetup.PartitionKeyLabels | glue/setup_catalog.py:64-69 | the partition keys followed by `=` are the directory labels the handler writes |
| GlueSetup.Catalog.constructor | glue/setup_catalog.py:5 | the catalog holds the given databases and tables, every table in an existing database |
| GlueSetup.Catalog.CreateDatabase | glue/setup_catalog.py:7-18 | afterwards the database exists whether it existed or not; nothing else changes |
| GlueSetup.Catalog.DeleteTableIfExists | glue/setup_catalog.py:20-30 | afterwards the table is absent whether it was present or not; nothing else changes |
| GlueSetup.Catalog.CreateTable | glue/setup_catalog.py:32-74 | the fixed definition is added exactly when its database exists and the table is absent; otherwise the error is swallowed and nothing changes |
| GlueSetup.Catalog.SetupCatalog | glue/setup_catalog.py:114-128 | whatever the catalog held, afterwards the database exists and the table has exactly the fixed definition; other tables are untouched; then the partitions update runs, submitting `MSCK REPAIR TABLE` in the catalog database with no workgroup and sleeping 2 s per non-terminal poll, and its outcome is returned |
| GlueSetup.UpdatePartitions | glue/setup_catalog.py:76-112 | the repair is submitted against the catalog database with no workgroup, waits 2 s per non-terminal poll and ends in success, a failure naming the state, or an exception |
| Analytics.RunAthenaQuery | visualize/parking_analytics.py:12-41 | no workgroup and no sleep; a table of metadata labels and `Rows[1:]` with `''` exactly when the run yields one; FAILED/CANCELLED raises "Query failed with state: STATE"; other exceptions propagate |
| Analytics.HeaderOnlyIsEmpty | visualize/parking_analytics.py:35-39 | a header-only or empty `Rows` gives an empty table with the metadata columns, not an error |
| CompleteFlowDemo.TestLambdaDirect | demo/complete_flow_demo.py:29-56 | sends the one-record payload to `dev-parking-processor`; true exactly when the invocation returns and its payload is JSON of any kind, false on any exception |
| CompleteFlowDemo.FailureLog | demo/complete_flow_demo.py:122-123 | FAILED logs "Query failed", CANCELLED "Query cancelled" |
| CompleteFlowDemo.RunAthenaQuery | demo/complete_flow_demo.py:81-128 | submits the fixed SELECT of the five newest events in workgroup `primary` and waits 2 s per non-terminal poll (the total slept is returned); on failure logs the lower-cased state once, with no retry; an exception is logged with its message; success logs no error line (the result lines it logs are not modelled) |
| CompleteFlowDemo.RunDemo | demo/complete_flow_demo.py:130-152 | five invocations, each success flag depending on its own response only; then at most five listed keys, then the query |

## Left out

- Logging and `print` are not modelled, except for these lines: the repair's closing printed line (`CompleteFlowTest.RepairTablePartitions`) and the demo query's error log (`CompleteFlowDemo.RunAthenaQuery`, through `FailureLog` and `Describe`). Exception texts are modelled where they are part of a result (`Describe`, the analytics failure text). Every other printed or logged line, such as progress messages, result tables and test reports, is left out; each is a function of the modelled outcomes.
- `time.sleep` is counted, not performed. Polling delays appear as the `slept` total; the fixed pauses between steps (`time.sleep(0.5)`, `(1)`, `(5)`, `(10)`) are omitted.
- The boto3 clients (S3, Lambda, Glue, Athena) and Kafka are replaced as follows:
  - an object store class with scripted failures;
  - an abstract catalog class;
  - an `Engine` trace;
  - a response value.
- Ingestion.Handler: the S3 bucket name from the environment and `ContentType` are not part of a put; the log lines are left out.
- Strings.Lower: only ASCII capitals are lowered. Python's `str.lower()` also lowers non-ASCII capitals ('Ä' to 'ä', and 'İ' to two characters); the only call site lowers `FAILED` or `CANCELLED` (`demo/complete_flow_demo.py:123`), which are ASCII.
- Timestamp.Parse: models the fixed-width form only; the lenient forms `strptime` also accepts are listed under Ingestion.MessageTimestamp below.
- Ingestion.MessageTimestamp: `strptime` also accepts one-digit month, day, hour, minute and second fields, a leading space in the day field, and lower-case `t` and `z` (its pattern is matched case-insensitively). Only the fixed-width form with upper-case `T` and `Z` that every generator emits is accepted.
- Ingestion.IsoFormat: `datetime.utcnow().isoformat()` carries microseconds. The model's clock has whole seconds, so microseconds are not modelled.
- Json.Loads: JSON is abstract. A text encodes an object, encodes some other JSON value, or is malformed; what decoding ignores is one `layout` number. Escaping, number formats, arrays and nested objects are not modelled separately.
- SimulatedFlow.KafkaBuffer.Produce: the `except` branch returning False is unreachable in the model, since appending to a sequence cannot raise.
- SimulatedFlow.EnrichedEvent keeps the year, month, day and hour as numbers. The simulated query's table layout (`:7`, `:5` widths) is printing only.
- GlueSetup.Catalog.SetupCatalog: the abstract catalog has no failures of its own. In the source, `create_database` catches only `AlreadyExistsException` (`glue/setup_catalog.py:17`) and `delete_table` only `EntityNotFoundException` (`:29`); any other Glue error escapes `main`, which has no `try` (`:114-128`). "Afterwards the table has exactly the fixed definition" therefore holds only when Glue raises nothing else.
- Ingestion.Handler and Ingestion.Prepare: records are typed, so the `KeyError` raised when `event['records']` is missing, or a record lacks `topic`, `partition`, `offset` or `value`, cannot arise. In the source, that error is re-raised at the record that lacks the field (`lambda/ingestion/index.py:26-38,58-60`).
- GlueSetup.Catalog.CreateTable: every error is swallowed, as in the source. Only the two catalog conditions (missing database, existing table) are modelled as causes.
- GlueSetup.UpdatePartitions and CompleteFlowTest.RepairTablePartitions: `MSCK REPAIR TABLE` is not modelled as adding partitions to the catalog. The model only waits for the statement's state.
- Analytics.RunAthenaQuery: `pd.DataFrame` is modelled as a column list and a row list. The shape check pandas makes when a row's width differs from the column count is not modelled.
- CompleteFlowTest.InspectedKeys: each listed object's content is fetched and pretty-printed in the source. Only which keys are inspected is modelled.
- `check_glue_catalog` (`test/test_complete_flow.py:68-88`) only prints what it reads, so it is not modelled.
- The `main` functions of `test/test_complete_flow.py` and `visualize/parking_analytics.py`, and the `plot_*` functions, are left out: they are sequencing and rendering only.
- `presentation/cost_calculator.py` (floating-point cost arithmetic), `test/parking_simulator.py` (network producer with a wall-clock loop) and `demo/run_demo.py` (subprocess orchestration) are not part of this model.
- Termination: the source polls in `while True`. A started statement is required to have a terminal answer in its trace; an infinite wait is not modelled.

## Findings

| source | as written | input that shows it | evidently intended | confidence | as-written member | corrected member |
|---|---|---|---|---|---|---|
| test/test_athena_queries.py:47 | column names are read as `col['Label']` from the cells of `Rows[0]`, which carry only `VarCharValue` | any SUCCEEDED query whose first row has a cell: `KeyError: 'Label'` is caught and `run_query` returns False | column labels from `ResultSetMetadata.ColumnInfo`, as `visualize/parking_analytics.py:34` does, so a succeeded query reports True | high (not executed) | AthenaTester.AsWrittenRejectsSuccess | AthenaTester.IntendedSucceeds |
| demo/simulated_flow_demo.py:71-75 | `processed_at`, year, month, day and hour each call `datetime.utcnow()` separately | readings 2024-12-31 23:59:59 (for `processed_at` and year) and 2025-01-01 00:00:00 (for month, day, hour) give partition 2024-01-01 hour 0 | one clock reading per event, so the fields describe one instant | medium (not executed) | SimulatedFlow.EnrichAcrossNewYear | SimulatedFlow.Enrich |
