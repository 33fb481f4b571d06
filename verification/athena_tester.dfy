/**
 * The query tester (`test/test_athena_queries.py`): an `AthenaQueryTester` holding the
 * database, workgroup and output location its queries run with, whose `run_query` waits
 * for the statement with a one-second poll and reports success as a boolean, and
 * `test_queries`, which runs its three fixed statements one after another.
 */
module AthenaTester {
  import opened Wrappers
  import opened QueryRunner
  import opened Config

  /**
   * `run_query` as written: polls every second, and on success takes the column names from
   * `col['Label']` of the first row's cells, then the rows after it with `''` for NULL.
   */
  const AsWritten := RunnerConfig(1, Fetch(CellLabels, "", false))

  /** The evident intent: the column names from the result metadata's labels. */
  const Intended := RunnerConfig(1, Fetch(ColumnInfo, "", false))

  class AthenaQueryTester {
    var database: string
    var workgroup: string
    var outputLocation: string

    /** `AthenaQueryTester(database=GLUE_DATABASE, workgroup=ATHENA_WORKGROUP, output_location=f's3://{S3_BUCKET}/athena-results/')`. */
    constructor (database: string := GlueDatabase, workgroup: string := AthenaWorkgroup,
                 outputLocation: string := ResultsLocation)
      ensures this.database == database && this.workgroup == workgroup && this.outputLocation == outputLocation
    {
      this.database := database;
      this.workgroup := workgroup;
      this.outputLocation := outputLocation;
    }

    /** The request `run_query(query)` submits, built from the tester's own settings. */
    function Request(query: string): (r: StartRequest)
      reads this
      ensures r.queryString == query && r.database == database
      ensures r.outputLocation == outputLocation && r.workGroup == Some(workgroup)
    {
      StartRequest(query, database, outputLocation, Some(workgroup))
    }

    /**
     * `run_query(query)` as written: true exactly when the run produces a table; a failed or
     * cancelled statement, and every exception, give false. The statement is submitted once,
     * and the loop sleeps one second after each non-terminal observation.
     */
    method RunQuery(query: string, engine: Engine) returns (ok: bool, request: StartRequest, slept: nat)
      requires engine.start.Ok? ==> HasExit(engine.polls)
      ensures request == Request(query)
      ensures ok <==> Expected(engine, AsWritten).Table?
      ensures slept == if engine.start.Ok? then FirstExit(engine.polls) else 0
    {
      request := Request(query);
      var outcome;
      outcome, slept := QueryRunner.RunQuery(engine, AsWritten);
      ok := outcome.Table?;
    }

    /** `run_query(query)` with the header taken from the result metadata. */
    method RunQueryIntended(query: string, engine: Engine) returns (ok: bool, request: StartRequest, slept: nat)
      requires engine.start.Ok? ==> HasExit(engine.polls)
      ensures request == Request(query)
      ensures ok <==> Succeeds(engine)
      ensures slept == if engine.start.Ok? then FirstExit(engine.polls) else 0
    {
      request := Request(query);
      var outcome;
      outcome, slept := QueryRunner.RunQuery(engine, Intended);
      IntendedSucceeds(engine);
      ok := outcome.Table?;
    }
  }

  /** The statement succeeded and its results carry rows and column metadata. */
  predicate Succeeds(engine: Engine)
    requires engine.start.Ok? ==> HasExit(engine.polls)
  {
    && engine.start.Ok?
    && var p := engine.polls[FirstExit(engine.polls)];
    && p.Status? && p.state == Succeeded
    && engine.results.Ok? && engine.results.value.resultSet.Some?
    && engine.results.value.resultSet.value.rows.Some?
    && engine.results.value.resultSet.value.columnInfo.Some?
  }

  /** With metadata labels, `run_query` reports success exactly when the statement succeeded and its results are complete. */
  lemma IntendedSucceeds(engine: Engine)
    requires engine.start.Ok? ==> HasExit(engine.polls)
    ensures Expected(engine, Intended).Table? <==> Succeeds(engine)
  {
    if Succeeds(engine) {
      var rs := engine.results.value.resultSet.value;
      assert Header(rs, ColumnInfo) == Ok(rs.columnInfo.value);
    }
  }

  /**
   * As written, a statement that succeeds with a non-empty header row of Athena cells
   * (which carry no `Label`) is reported as a failure.
   */
  lemma AsWrittenRejectsSuccess(engine: Engine, rows: seq<Row>)
    requires engine.start.Ok? && HasExit(engine.polls)
    requires engine.polls[FirstExit(engine.polls)].Status? && engine.polls[FirstExit(engine.polls)].state == Succeeded
    requires engine.results.Ok? && engine.results.value.resultSet.Some?
    requires engine.results.value.resultSet.value.rows == Some(rows)
    requires rows != [] && rows[0] != [] && rows[0][0].columnLabel.None?
    ensures Expected(engine, AsWritten) == Raised(MissingField("Label"))
    ensures !Expected(engine, AsWritten).Table?
  {
    var rs := engine.results.value.resultSet.value;
    LabelHeaderRaises(rows, rs.columnInfo, "", false);
    assert engine.results.value == QueryResults(Some(ResultSet(Some(rows), rs.columnInfo)));
  }

  /** Hourly occupancy rates over the last 24 hours. */
  const HourlyOccupancyQuery :=
      "\n"
      + "        SELECT \n"
      + "            date_trunc('hour', timestamp) as hour,\n"
      + "            count(*) as total_events,\n"
      + "            sum(case when status = 'occupied' then 1 else 0 end) as occupied_spots,\n"
      + "            round(sum(case when status = 'occupied' then 1 else 0 end)::decimal / count(*) * 100, 2) as occupancy_rate\n"
      + "        FROM parking_events\n"
      + "        GROUP BY date_trunc('hour', timestamp)\n"
      + "        ORDER BY hour DESC\n"
      + "        LIMIT 24\n"
      + "        "

  /** The ten hours with the highest occupancy rate. */
  const PeakHoursQuery :=
      "\n"
      + "        SELECT \n"
      + "            date_trunc('hour', timestamp) as hour,\n"
      + "            count(*) as total_events,\n"
      + "            sum(case when status = 'occupied' then 1 else 0 end) as occupied_spots,\n"
      + "            round(sum(case when status = 'occupied' then 1 else 0 end)::decimal / count(*) * 100, 2) as occupancy_rate\n"
      + "        FROM parking_events\n"
      + "        GROUP BY date_trunc('hour', timestamp)\n"
      + "        ORDER BY occupancy_rate DESC\n"
      + "        LIMIT 10\n"
      + "        "

  /** Occupancy by day of the week. */
  const DayOfWeekQuery :=
      "\n"
      + "        SELECT \n"
      + "            day_of_week(timestamp) as day,\n"
      + "            count(*) as total_events,\n"
      + "            sum(case when status = 'occupied' then 1 else 0 end) as occupied_spots,\n"
      + "            round(sum(case when status = 'occupied' then 1 else 0 end)::decimal / count(*) * 100, 2) as occupancy_rate\n"
      + "        FROM parking_events\n"
      + "        GROUP BY day_of_week(timestamp)\n"
      + "        ORDER BY day\n"
      + "        "

  /** The statements `test_queries()` runs, in order, as the triple-quoted texts of the test. */
  const TestStatements := [HourlyOccupancyQuery, PeakHoursQuery, DayOfWeekQuery]

  /** One line of the `test_queries` report: the statement's number, counting from 1, and whether it succeeded. */
  datatype QueryReport = QueryReport(number: nat, success: bool)

  /**
   * `test_queries()`: a default tester runs each of the three fixed statements once, in list
   * order, through `run_query` as written; `engines[i]` is the service's behaviour for the
   * i-th statement.
   */
  method TestQueries(engines: seq<Engine>) returns (reports: seq<QueryReport>, requests: seq<StartRequest>)
    requires |engines| == |TestStatements|
    requires forall i :: 0 <= i < |engines| ==> (engines[i].start.Ok? ==> HasExit(engines[i].polls))
    ensures |reports| == |TestStatements| && |requests| == |TestStatements|
    ensures forall i :: 0 <= i < |TestStatements| ==> reports[i] == QueryReport(i + 1, Expected(engines[i], AsWritten).Table?)
    ensures forall i :: 0 <= i < |TestStatements| ==>
      requests[i] == StartRequest(TestStatements[i], GlueDatabase, ResultsLocation, Some(AthenaWorkgroup))
  {
    var tester := new AthenaQueryTester();
    reports, requests := [], [];
    for i := 0 to |TestStatements|
      invariant tester.database == GlueDatabase && tester.workgroup == AthenaWorkgroup
      invariant tester.outputLocation == ResultsLocation
      invariant |reports| == i && |requests| == i
      invariant forall j :: 0 <= j < i ==> reports[j] == QueryReport(j + 1, Expected(engines[j], AsWritten).Table?)
      invariant forall j :: 0 <= j < i ==>
        requests[j] == StartRequest(TestStatements[j], GlueDatabase, ResultsLocation, Some(AthenaWorkgroup))
    {
      var success, request, _ := tester.RunQuery(TestStatements[i], engines[i]);
      reports := reports + [QueryReport(i + 1, success)];
      requests := requests + [request];
    }
  }
}
