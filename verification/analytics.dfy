/**
 * The analytics query helper (`visualize/parking_analytics.py`, `run_athena_query`): it
 * polls without pausing, names the columns after the result metadata, keeps the rows after
 * the header row with `''` for missing values, and raises when the statement does not
 * succeed.
 */
module Analytics {
  import opened Wrappers
  import opened QueryRunner
  import opened Config

  /** No delay between polls; column names from `ResultSetMetadata.ColumnInfo`; no guard. */
  const AnalyticsConfig := RunnerConfig(0, Fetch(ColumnInfo, "", false))

  /** The data frame: column names and rows of values. */
  datatype Frame = Frame(columns: seq<string>, rows: seq<seq<string>>)

  /**
   * `run_athena_query(query)`: the frame of a successful statement; otherwise the exception
   * propagates, "Query failed with state: <STATE>" for a failed or cancelled statement.
   */
  method RunAthenaQuery(query: string, engine: Engine) returns (r: Result<Frame, string>, request: StartRequest, slept: nat)
    requires engine.start.Ok? ==> HasExit(engine.polls)
    ensures request == StartRequest(query, CatalogDatabase, ResultsLocation, None)
    ensures slept == 0
    ensures var o := Expected(engine, AnalyticsConfig);
      && (r.Ok? <==> o.Table?)
      && (o.Table? ==> r.value == Frame(o.header, o.rows))
      && (o.Unsuccessful? ==> r == Err("Query failed with state: " + o.state.Name()))
      && (o.Raised? ==> r == Err(Describe(o.fault)))
  {
    request := StartRequest(query, CatalogDatabase, ResultsLocation, None);
    var outcome;
    outcome, slept := RunQuery(engine, AnalyticsConfig);
    match outcome
    case Table(header, rows) => r := Ok(Frame(header, rows));
    case Unsuccessful(state, _) => r := Err("Query failed with state: " + state.Name());
    case Raised(fault) => r := Err(Describe(fault));
    case NoResults => assert false;
    case Completed => assert false;
  }

  /**
   * A successful statement whose rows are only the header, or none at all, gives an empty
   * frame with the metadata's column names, not an error.
   */
  lemma HeaderOnlyIsEmpty(engine: Engine, rows: seq<Row>, labels: seq<string>)
    requires engine.start.Ok? && HasExit(engine.polls)
    requires engine.polls[FirstExit(engine.polls)].Status? && engine.polls[FirstExit(engine.polls)].state == Succeeded
    requires engine.results == Ok(QueryResults(Some(ResultSet(Some(rows), Some(labels)))))
    requires |rows| <= 1
    ensures Expected(engine, AnalyticsConfig) == Table(labels, [])
  {
    assert DataRows(rows, "") == [];
  }
}
