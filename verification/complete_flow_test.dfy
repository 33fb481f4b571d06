/**
 * The end-to-end test (`test/test_complete_flow.py`): it invokes the ingestion function
 * with a one-record payload, lists the stored objects, repairs the table's partitions and
 * queries the newest events, waiting for each statement with a two-second poll.
 */
module CompleteFlowTest {
  import opened Wrappers
  import opened Strings
  import opened Timestamp
  import opened ParkingEvents
  import Json
  import opened Ingestion
  import opened QueryRunner
  import opened Config

  const RepairStatement := "MSCK REPAIR TABLE parking_analytics.parking_events"

  /**
   * The query for the five newest events, the same triple-quoted text in the test and in
   * the demo, with its line breaks and indentation.
   */
  const NewestEventsQuery :=
    "\n    SELECT spot_id, status, timestamp,\n           year, month, day, hour\n"
    + "    FROM parking_analytics.parking_events\n    ORDER BY timestamp DESC\n    LIMIT 5\n    "

  /** The repair only waits for the statement's state. */
  const RepairConfig := RunnerConfig(2, StatusOnly)

  /** The query takes the header from the first row's values and shows NULL as "NULL". */
  const QueryConfig := RunnerConfig(2, Fetch(CellValues, "NULL", true))

  /** The test event: one record of the topic at partition 0, offset 0, carrying the event's JSON. */
  function LambdaPayload(e: Event): (p: LambdaEvent)
    ensures |p.records| == 1
    ensures p.records[0].topic == KafkaTopic && p.records[0].partition == 0 && p.records[0].offset == 0
    ensures Json.Loads(p.records[0].value) == Some(ToObject(e))
  {
    LambdaEvent([Record(KafkaTopic, 0, 0, Json.Dumps(ToObject(e)))])
  }

  /**
   * A generated event sent this way is accepted by the handler, which stores the message
   * under `parking-data/<hour of the event>/parking-events-0-0.json`; since the payload was
   * itself written by `json.dumps`, re-encoding gives back the very text that was sent.
   */
  lemma PayloadAccepted(spot: int, occupied: bool, now: DateTime)
    requires 1 <= spot <= SpotCount && Valid(now)
    ensures var r := LambdaPayload(GenerateParkingEvent(spot, occupied, now)).records[0];
      Prepare(r) == Ok(PutRequest(S3Key(now, KafkaTopic, 0, 0), r.value))
    ensures S3Key(now, KafkaTopic, 0, 0) == "parking-data/" + PartitionPath(now) + "/parking-events-0-0.json"
  {
    var e := GenerateParkingEvent(spot, occupied, now);
    assert MessageTimestamp(ToObject(e)) == Ok(now);
    FirstRecordKey(now);
  }

  lemma FirstRecordKey(now: DateTime)
    requires Valid(now)
    ensures S3Key(now, KafkaTopic, 0, 0) == "parking-data/" + PartitionPath(now) + "/parking-events-0-0.json"
  {
    FirstObjectName();
    FirstKeyText(PartitionPath(now));
  }

  lemma FirstKeyText(p: string)
    ensures KeyPrefix + "/" + p + "/" + "parking-events-0-0.json" == "parking-data/" + p + "/parking-events-0-0.json"
  {
  }

  lemma FirstObjectName()
    ensures ObjectName(KafkaTopic, 0, 0) == "parking-events-0-0.json"
  {
    assert NatToString(0) == "0";
  }

  const InspectedObjects := 5

  /** `response['Contents'][:5]`: the first five listed keys at most, none when the listing has no contents. */
  function InspectedKeys(contents: Option<seq<string>>): (keys: seq<string>)
    ensures contents.None? ==> keys == []
    ensures contents.Some? ==> (
      && |keys| == (if |contents.value| < InspectedObjects then |contents.value| else InspectedObjects)
      && keys == contents.value[..|keys|])
  {
    match contents
    case None => []
    case Some(listed) => if |listed| < InspectedObjects then listed else listed[..InspectedObjects]
  }

  /**
   * `repair_table_partitions()`: submits the repair in the default workgroup, waits for it
   * two seconds at a time and prints one closing line: the engine's reason (or "Unknown
   * error") for a failure, a fixed line for a cancellation or a success, and the message
   * of any exception.
   */
  method RepairTablePartitions(engine: Engine) returns (request: StartRequest, outcome: Outcome, slept: nat, line: string)
    requires engine.start.Ok? ==> HasExit(engine.polls)
    ensures request == StartRequest(RepairStatement, CatalogDatabase, ResultsLocation, Some("primary"))
    ensures outcome == Expected(engine, RepairConfig)
    ensures slept == if engine.start.Ok? then FirstExit(engine.polls) * 2 else 0
    ensures outcome.Completed? ==> line == "Partition repair completed successfully"
    ensures outcome.Unsuccessful? && outcome.state == Failed ==> line == "Repair failed: " + outcome.reason
    ensures outcome.Unsuccessful? && outcome.state == Cancelled ==> line == "Repair was cancelled"
    ensures outcome.Raised? ==> line == "Error repairing partitions: " + Describe(outcome.fault)
  {
    request := StartRequest(RepairStatement, CatalogDatabase, ResultsLocation, Some("primary"));
    outcome, slept := RunQuery(engine, RepairConfig);
    match outcome
    case Completed => line := "Partition repair completed successfully";
    case Unsuccessful(state, reason) =>
      line := if state == Failed then "Repair failed: " + reason else "Repair was cancelled";
    case Raised(fault) => line := "Error repairing partitions: " + Describe(fault);
    case _ => assert false;
  }

  /** `run_athena_query()`: the query for the five newest events, waited for and tabulated. */
  method RunAthenaQuery(engine: Engine) returns (request: StartRequest, outcome: Outcome, slept: nat)
    requires engine.start.Ok? ==> HasExit(engine.polls)
    ensures request == StartRequest(NewestEventsQuery, CatalogDatabase, ResultsLocation, Some("primary"))
    ensures outcome == Expected(engine, QueryConfig)
    ensures slept == if engine.start.Ok? then FirstExit(engine.polls) * 2 else 0
  {
    request := StartRequest(NewestEventsQuery, CatalogDatabase, ResultsLocation, Some("primary"));
    outcome, slept := RunQuery(engine, QueryConfig);
  }

  /**
   * What the query shows once the statement has succeeded: no results when `ResultSet` or
   * `Rows` is absent; an error when `Rows` is empty or a header cell has no value; otherwise
   * the header row's values and the remaining rows with "NULL" for missing values.
   */
  lemma QueryResultsShown(qr: QueryResults)
    ensures var o := Extract(qr, CellValues, "NULL", true);
      && (qr.resultSet.None? || qr.resultSet.value.rows.None? ==> o == NoResults)
      && (qr.resultSet.Some? && qr.resultSet.value.rows == Some([]) ==> o == Raised(NoHeaderRow))
      && (qr.resultSet.Some? && qr.resultSet.value.rows.Some? && qr.resultSet.value.rows.value != [] ==>
            var rows := qr.resultSet.value.rows.value;
            var h := CellHeader(rows[0], CellValues);
            && (h.Err? ==> o == Raised(MissingField("VarCharValue")))
            && (h.Ok? ==> o == Table(h.value, DataRows(rows, "NULL"))))
  {
  }
}
